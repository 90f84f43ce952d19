# ODR and the Stevens algorithms, in Dafny

This project models the On-Demand Routing (ODR) daemon of `assign3`, a simplified AODV, and six
self-contained algorithms of the Stevens library shipped with it. It proves properties of whole runs.

**ODR.** The daemon is modelled at two levels that meet.

- `OdrModel` says on values what one run of `handle_ethernet_msg` or `handle_peer_msg` does to the routing
  table, the queue of parked frames, the port table and the broadcast-id counter, and which frames and peer
  messages come out of it.
- `RoutingTable`, `PendingQueue` and `PortTable` are the linked lists of the source, and `OdrNode` is the
  process working on them with frames in wire byte order. Every method is proved to do what `OdrModel` says.
- `Network` joins any number of such nodes by shared segments. A step receives, loses or duplicates any frame
  in flight, or brings a client request. Frames may be received in any order.

The theorems over runs of the network are in `LoopFreedom`, `ShortestHop`, `FloodTermination`, `EndToEnd`,
`HonestHops`, `Traffic` and `DataIntegrity`. For several of the steps that they exclude, runs from the initial state
show that the theorem fails with them: `RoutingLoop` and `ResendLoop` for the three exclusions of loop freedom,
`InventedHops` for the two of real hop counts, and `LineRuns` for newer requests of the same source in `EndToEnd` and
`ShortestHop`. They are put together from the steps in `Stories`. `LineRuns` also has a run that meets all
conditions of `EndToEnd`. `AnsweredOnce` follows frames to the frames they cause, and `ClockOrigin` compares runs
with different clocks. `NodeHistory` is about one node over its life.

`HandlerLaws` says what one handler run does without the functions of `OdrModel`: by the fields of frames, the names
of interfaces and differences of clock readings.

**Stevens.** `InetText`, `InetGrammar`, `InetPrinted` and `InetCode` (address text), `InCksum` (Internet checksum),
`SigioRing` (a ring shared with a signal handler), `ConnQueue` (a ring shared by threads), `Copier` (non-blocking copy
both ways) and `ReadLine` (buffered line reader).

What a handler gets from outside is a parameter: the clock readings, the receiving interface, the sender's
hardware address, the list of interfaces, the results of `read`, `write`, `recvfrom` and `select`, and the
thread that a signal wakes.

## Where the code and its documentation disagree

The model follows the code.

- A node is meant to drop its own frames, but the test compares two pointers and never succeeds
  (`assign3/odr_and.c:277`). The model handles echoed frames like any other.
- The policy in `assign3/README.md` accepts a higher id or a lower hop count. The code also accepts an equal
  hop count, and looks at hop counts only if the ids are equal.
- An intermediate reply carries an id of the replying node, not of the destination as in section 6.6.2 of
  RFC 3561. `ProxyAnswerMakesALoop` shows a consequence.
- The comment on `inet_pton6` says that `::` in a full address is ignored. `FullAddressWithGap` says what
  happens, and when the comment is right.
- `inet_pton6` is documented to accept only addresses of section 2.2 of RFC 1884. It also accepts a single colon
  behind the last group; `Read6Exactly` gives all texts it accepts, `TrailingColonIgnored` this one.
- `inet_ntop4` is given the size of its destination, but its test does not count the NUL; `InetNtop4` says exactly
  when that makes a difference.
- `readline` stores a line "like fgets" and returns its length, but one more if it stops for lack of room;
  `Returned` in `ReadLine` says when.

## Model

| member | source | states |
|---|---|---|
| `LoopFreedom.StepKeepsInv` | assign3/odr_and.c:306-605 | every RREQ, RREP, DATA, ASENT and client step outside the excluded kinds keeps: the next hop for a tracked address is that address or holds a strictly better route, every frame in flight is backed by its sender's route, every reply and data frame goes to a node that can pass it on |
| `LoopFreedom.RunKeepsInv` | assign3/odr_and.c:244-615 | the same over every finite run with loss, duplication and reordering |
| `LoopFreedom.ImprovingRoutesArrive` | assign3/odr_functions.c:436-462 | next hops that always improve (later id, or same id and fewer hops) lead to the destination without visiting a node twice |
| `LoopFreedom.LoopFree` | assign3/odr_and.c:306-605 | in every reachable state of such a run, from every node with a route to a tracked address, following next hops arrives within as many hand-overs as there are nodes |
| `LoopFreedom.NeverParkedOnTheWay` | assign3/odr_and.c:452-494 | in such a run a reply or data frame for a tracked address is parked only by the node it came from |
| `RoutingLoop.LateFrameMakesALoop` | assign3/odr_functions.c:485-511 | in any network of this shape, for every staleness threshold, a run without intermediate replies and without re-sent foreign frames, whose last step alone deletes an expired entry, ends in a routing loop: deletions cannot be allowed in loop freedom |
| `RoutingLoop.ProxyAnswerMakesALoop` | assign3/odr_functions.c:183-188 | for every positive threshold a run that never deletes an entry and never re-sends a foreign frame, and in which a single step answers for another node, ends in a routing loop: such replies cannot be allowed either |
| `ResendLoop.ResentFramesMakeALoop` | assign3/odr_and.c:416-436 | in any ring of three nodes, for every positive threshold, a run that deletes no entry for s and has no intermediate reply ends in a routing loop for s, because two frames parked on the way are re-sent with their old hop counts: nor can those |
| `ShortestHop.FloodStarts` | assign3/odr_and.c:174-201 | a client request for an address without a usable route starts a flood that meets the flood invariant |
| `ShortestHop.FloodStep` | assign3/odr_and.c:307-389 | receiving a frame of the flood, as RREQ or ASENT, keeps: recorded hop counts are lengths of real walks, and every neighbour of a node that recorded the flood has it within one more hop or a frame on the way |
| `ShortestHop.QuietStep` | assign3/odr_and.c:391-605 | so does every other step of a calm run; other nodes may do what they like, but the source of the flood sends nothing else with its id or a later one |
| `ShortestHop.WalkBoundsHops` | assign3/odr_functions.c:249-284 | once no frame of the flood is in flight, a walk of length k around the destination bounds the recorded hop count by k |
| `ShortestHop.ShortestHops` | assign3/odr_and.c:307-389 | after a flood without loss, in any order, with no newer frame of its source about, every node with a shortest walk from the source that avoids the destination holds exactly that hop count under the flood's id |
| `FloodTermination.HopBound` | assign3/odr_and.c:312-385 | no frame of a flood counts more hops than there are nodes, though ties are re-flooded and own frames echoed |
| `FloodTermination.StepLosesWeight` | assign3/odr_functions.c:444-461 | a weighted sum over the frames of the flood never grows and strictly falls with each receipt of one |
| `FloodTermination.FloodTerminates` | assign3/odr_and.c:583-603 | from the step that starts it, a client's request with or without the discovery flag or the search of a node that parks a frame, to the end of any run a flood is received at most (fan + 1) ^ (nodes + 2) times, and every frame and record stays within the node count |
| `FloodTermination.FreshFloodTerminates` | assign3/odr_and.c:312-385 | the same from any state in which nobody has recorded the (source, id) and all its frames are at hop 0, with a bound proportional to their number |
| `FloodTermination.StartIsFresh` | assign3/odr_and.c:473-489 | both ways of starting a flood lead to such a state |
| `EndToEnd.StepServes` | assign3/odr_and.c:306-605 | each careful step hands the message to the process at the destination or keeps it under way: waiting at its source with the flood or a reply still to come, or in flight |
| `EndToEnd.MessageArrives` | assign3/odr_and.c:115-229 | from a client's request for a reachable destination, without loss of the flood, of replies or of the message, without deletions and intermediate replies for either end, and with no other frame of the source that has the flood's id or a later one: once all of that is quiet, the message has been handed to the process on its port |
| `LineRuns.MessageArrivesOnLine` | assign3/odr_and.c:115-229 | on any line of three nodes all conditions of the previous row are met by a run of six receipts, and one of them hands the message over |
| `LineRuns.NewerRequestStrandsMessage` | assign3/odr_and.c:367-371 | on any line of three nodes, if a client at the source asks for something else and the newer request overtakes the older one, then with nothing lost or duplicated and all other conditions met nothing is in flight after five steps, the message is still parked and the destination has not recorded the flood |
| `HonestHops.StepKeepsInv` | assign3/odr_and.c:306-605 | each step, deletions and intermediate replies included, keeps: an id that is not 0 comes with the length of a real walk |
| `HonestHops.HopCountsAreReal` | assign3/odr_functions.c:382-401 | in every reachable state a recorded hop count with a non-zero id is the length of a walk to that address |
| `AnsweredOnce.NoticesStayNotices` | assign3/odr_and.c:583-603 | in every run, with loss, duplication and any order, no frame that descends from an ASENT frame causes a reply or a request, is handed to a process, or is parked |
| `AnsweredOnce.AnsweredOnce` | assign3/odr_and.c:335-361 | nothing that descends from what a node floods on when it answers a request causes another reply or request |
| `ClockOrigin.ClockOriginDoesNotMatter` | assign3/odr_functions.c:466-520 | if all clocks and timestamps are set forward alike, every run has the same frames in flight and the same tables but for the timestamps |
| `HandlerLaws.LookupExactly` | assign3/odr_functions.c:466-520 | a lookup returns the entry and leaves the table alone if and only if there is one, its age is below the threshold and the flag is not 1; otherwise it returns none, and that address alone is gone |
| `HandlerLaws.SourceRecorded` | assign3/odr_functions.c:382-462 | after a frame the entry for its source is the frame's own, with one more hop and the time of the write, if and only if that is news by age, id and hops; no other entry changes, and only that of an unknown destination goes |
| `HandlerLaws.RequestAnswered` | assign3/odr_and.c:324-345 | a request is answered if and only if the node is the destination or has a young entry for it: by one reply with addresses and ports exchanged and a new id, along the entry for the source |
| `HandlerLaws.PassedOn` | assign3/odr_and.c:347-385 | exactly what is flooded on: only news, on exactly the other interfaces, with one more hop and else unchanged, as a request where unanswered and as ASENT where answered |
| `HandlerLaws.AnswerEndsSearch` | assign3/odr_and.c:347-358 | a node that answers a request sends no request |
| `HandlerLaws.NoticeCausesNotices` | assign3/odr_and.c:583-603 | an ASENT frame causes nothing but ASENT frames |
| `HandlerLaws.PassedAlong` | assign3/odr_and.c:447-463 | a reply or message for another, known node goes along the entry for it, and nowhere else, with all that identifies it and the recorded hop count of its source |
| `HandlerLaws.ParkedAndSought` | assign3/odr_and.c:464-489 | for an unknown one it is parked unchanged, and exactly one request of the node's own per interface goes out |
| `HandlerLaws.ParkedIsReleased` | assign3/odr_and.c:405-443 | a reply releases the newest frame parked for the node it came from, which goes out once, as parked, along the entry for that node |
| `HandlerLaws.NothingToRelease` | assign3/odr_and.c:405-443 | with none parked it does nothing more |
| `HandlerLaws.MessageHandedOver` | assign3/odr_and.c:508-518 | a message for this node goes to the path of the first entry with its port, or nowhere if there is none |
| `HandlerLaws.OtherFrames` | assign3/odr_and.c:282-291 | a repeated forced discovery does nothing, an unknown type stops the process with a negative result, and nothing else does |
| `HandlerLaws.ClientEntered` | assign3/odr_and.c:134-137 | a client goes by the port of the first entry with its path, or by the next free one, under which it is then entered |
| `HandlerLaws.ClientMessageSent` | assign3/odr_and.c:212-225 | with a young entry and no flag the message goes out at once along it, with every field as stated, and nothing else changes |
| `HandlerLaws.ClientMessageParked` | assign3/odr_and.c:177-211 | otherwise it is parked, the entry is gone, and exactly one request with the next id per interface goes out |
| `HandlerLaws.ClientMessageLocal` | assign3/odr_and.c:154-165 | a message for this node is handed over; with no process on the port the process stops |
| `InventedHops.ResentFrameInventsHops` | assign3/odr_and.c:416-436 | on any line of three nodes a run in which one step re-sends a frame parked on the way, and none answers from an entry with id 0, ends with a non-zero id and a hop count that no walk has |
| `InventedHops.IdZeroAnswerInventsHops` | assign3/odr_and.c:190-201 | so does a run in which one step answers from an entry learnt from an originator's parked frame, which has id 0 and an id for a hop count, and none re-sends a frame parked on the way |
| `Traffic.TrafficIsProper` | assign3/odr_and.c:174-226 | in all runs with client flags 0 or 1, only RREQ and ASENT frames carry flag 1, no frame is addressed to its source, and only unflagged replies and data frames are parked, under their destination |
| `Traffic.FreshRoutesOnly` | assign3/odr_and.c:326-345 | every unicast on receipt of a frame follows an entry still in the table: the one for its source, as this frame makes it or unchanged and of age below the threshold at the second lookup, or the one for its destination, unchanged and of age below it at the first |
| `Traffic.PeerFollowsFresh` | assign3/odr_and.c:174-226 | every unicast for a client follows the unchanged entry for the destination, of age below the threshold at the lookup, and only without the flag |
| `Traffic.FreshRoutesInEveryRun` | assign3/odr_functions.c:466-520 | and so for every unicast of every step of every run, with no condition on the frame |
| `Traffic.FoundRouteStaysLinked` | assign3/odr_and.c:293-297 | for any frame, the entry found for the destination is still linked when followed if and only if it is not the case that source equals destination and its age has reached the threshold at the second lookup |
| `NodeHistory.EventAndEntry` | assign3/odr_and.c:312-321 | what any one event does to the entry for a source |
| `NodeHistory.UpMeansLived` | assign3/odr_and.c:680-732 | a process that is still up has reacted to every event, so all that is said of a node's life holds of it |
| `NodeHistory.LoopOnce` | assign3/odr_and.c:682-732 | one event adds what its handler does |
| `NodeHistory.LoopGoesOn` | assign3/odr_and.c:682-732 | the main loop goes on from where it stands, and nothing sent or handed over before is lost |
| `NodeHistory.TableAgreesWithHistory` | assign3/odr_functions.c:436-462 | between deletions the entry for a source was made by the last-arriving frame among those with the greatest id and then the least hop count, whatever their types |
| `NodeHistory.IdStays` | assign3/odr_functions.c:444-461 | after a flagged frame, which may itself replace an expired entry, the entry for its source keeps an id at least as great until it is deleted |
| `NodeHistory.ForcedDiscoveryOnce` | assign3/odr_and.c:282-291 | once a flagged (source, id) has been seen, later copies change nothing and send nothing until the entry is deleted |
| `DataIntegrity.StepKeepsInv` | assign3/odr_and.c:496-578 | every data frame in flight or parked carries a client's request |
| `DataIntegrity.MessagesAreAuthentic` | assign3/odr_functions.c:77-108 | in every run a message handed to a process in some step was given to ODR, in that step or an earlier one, by a client at the node and port it names, for this node, port and payload |
| `Network.TransmitSound` | assign3/odr_functions.c:249-284 | every frame in flight is a copy of a send, heard on the sender's segment |
| `Network.TransmitComplete` | assign3/odr_functions.c:249-284 | every plug that hears a send gets its copy |
| `Network.FloodExactly` | assign3/odr_functions.c:249-284 | a flood is one broadcast on exactly the interfaces other than `lo`, `eth0` and the receiving one |
| `Network.BaseNameIs` | assign3/odr_functions.c:253-254 | the part of a name in front of the colon is `base` if and only if the name is `base`, or `base` with a colon behind it |
| `Network.FloodByName` | assign3/odr_functions.c:249-284 | the same with the names spelled out, aliases included |
| `Frames.SwapIsNetworkOrder` | assign3/odr_functions.c:588-617 | a swapped integer stands in memory most significant byte first |
| `Frames.ConvertTwice` | assign3/odr_functions.c:588-617 | the two conversions undo each other on all seven integers |
| `Frames.ConvertsAll` | assign3/odr_functions.c:588-617 | each of the seven integers is converted, and nothing else is touched |
| `OdrNode.ReceiverRecovers` | assign3/odr_functions.c:621-674 | every frame on the wire was converted exactly once, so the receiver gets back every field that was meant |
| `OdrNode.Odr.constructor` | assign3/odr_and.c:617-648 | a process starts with empty lists and the server's port entry |
| `OdrNode.Odr.GetBroadcastId` | assign3/utils.c:32-37 | ids increase by one |
| `OdrNode.Odr.ConstructOdr` | assign3/odr_functions.c:645-674 | the frame is in network order, and only data frames carry the payload |
| `OdrNode.Odr.SendReqBroadcast` | assign3/odr_functions.c:220-286 | the loop over interfaces sends the flood of the model, in network order |
| `OdrNode.Odr.SendRrepPacket` | assign3/odr_functions.c:167-215 | a reply exchanges addresses and ports, takes a new id and follows the given entry |
| `OdrNode.Odr.ForwardRrep` | assign3/odr_functions.c:167-215 | a forwarded reply keeps them and its id |
| `OdrNode.Odr.LearnSource` | assign3/odr_and.c:312-321 | check or insert: the entry for the source is written exactly if the model says so |
| `OdrNode.Odr.TwoLookups` | assign3/odr_and.c:293-297 | both lookups with their deletions; the two pointers agree with the map, also where they alias |
| `OdrNode.Odr.HandleRreq` | assign3/odr_and.c:307-389 | refines the model's RREQ case |
| `OdrNode.Odr.HandleRrep` | assign3/odr_and.c:391-494 | refines the model's RREP case; what is parked stays in host order |
| `OdrNode.Odr.HandleData` | assign3/odr_and.c:496-578 | refines the model's DATA case |
| `OdrNode.Odr.Switch` | assign3/odr_and.c:306-605 | refines the model's dispatch, ASENT included |
| `OdrNode.Odr.HandleEthernetMsg` | assign3/odr_and.c:244-615 | on linked lists and wire frames, does to state, frames, peer messages and return value what the model says, so all properties of runs hold of it |
| `OdrNode.Odr.HandlePeerMsg` | assign3/odr_and.c:115-229 | the same for a client request, the failed assertion included |
| `OdrNode.Odr.Serve` | assign3/odr_and.c:680-732 | over every sequence of frames and client requests, until the process leaves its main loop, the lists stay well formed and state, frames in network order and peer messages are those of the model |
| `OdrNode.Odr.SendDataMessage` | assign3/odr_functions.c:113-163 | the data frame, in network order, along the given entry |
| `RoutingTableList.RoutingTable.GetREntry` | assign3/odr_functions.c:466-520 | succeeds if and only if there is an entry of age below the threshold and the flag is not 1; refines the map lookup that deletes an entry otherwise; entries not deleted keep their values, and the list stays doubly linked with one entry per destination |
| `RoutingTableList.RoutingTable.Unlink` | assign3/odr_functions.c:485-511 | the deleted node is the only one gone and both directions stay linked |
| `RoutingTableList.RoutingTable.CheckREntry` | assign3/odr_functions.c:436-462 | overwrites the entry in place exactly if the frame is better or ties |
| `RoutingTableList.RoutingTable.UpdateREntry` | assign3/odr_functions.c:382-401 | all data fields come from the frame, with one more hop |
| `RoutingTableList.RoutingTable.InsertREntry` | assign3/odr_functions.c:405-432 | adds one binding at the head, whatever the table holds |
| `RoutingTableList.RoutingTable.IsBroadidGreater` | assign3/odr_functions.c:722-740 | negative exactly if the table has an id for the source that is at least as great |
| `RoutingTableList.ViewDelete` | assign3/odr_functions.c:485-511 | taking a node out of a list with unique keys removes exactly its key from the map |
| `RoutingTableList.ViewInsert` | assign3/odr_functions.c:405-432 | a new key in front adds exactly one binding and keeps keys unique |
| `PendingQueueList.PendingQueue.InsertPendingQueue` | assign3/odr_functions.c:562-584 | refines push-front |
| `PendingQueueList.PendingQueue.LookupPendingQueue` | assign3/odr_functions.c:523-558 | refines remove-first-match, though removing the head leaves the new head's back link on the removed node |
| `PendingQueueList.NothingLostOrDoubled` | assign3/odr_functions.c:523-584 | over every sequence of inserts and lookups, frames parked are exactly those still parked and those handed out, with multiplicity |
| `PendingQueueList.LastInFirstOut` | assign3/odr_functions.c:523-584 | a lookup undoes the latest insert for its address |
| `PortTableList.PortTable.InsertMapPortSp` | assign3/odr_functions.c:10-33 | refines push-front |
| `PortTableList.PortTable.FetchEntryPort` | assign3/odr_and.c:38-51 | finds the first entry with the port, or none exactly if there is none |
| `PortTableList.PortTable.FetchEntryPath` | assign3/odr_and.c:55-81 | a known path keeps its port, an unknown one gets the next, an empty table gives null |
| `PortTableList.PortTable.GetNextPortno` | assign3/odr_and.c:32-35 | returns the counter and increments it |
| `PortTableList.PortFound` | assign3/odr_and.c:55-81 | the port found is that of the first entry with the path, and none is found only if there is none |
| `PortTableList.PathFound` | assign3/odr_and.c:38-51 | the same for the path found for a port |
| `PortTableList.PortsInStepUpTo4591` | assign3/odr_and.c:32-81 | every port leads back to its path if and only if at most 4591 different clients have spoken |
| `InetText.QuadRoundTrip` | assign3/Stevens/unpv13e/libfree/inet_pton.c:86-125 | reading the printed form of any four bytes gives them back |
| `InetText.Ipv6RoundTrip` | assign3/Stevens/unpv13e/libfree/inet_pton.c:140-224 | for every 16-byte address, reading its printed form gives it back, with `::` in front, inside, at the end or absent and with embedded IPv4 |
| `InetText.BestIsUnique` | assign3/Stevens/unpv13e/libfree/inet_ntop.c:135-156 | there is only one leftmost longest run of at least two zero words |
| `InetText.DigitPlaces` | assign3/Stevens/unpv13e/libfree/inet_pton.c:143-167 | the value of a digit is its place in one of the two digit strings, and the digit printed for a value stands there in the lower-case one |
| `InetText.FullAddressWithGap` | assign3/Stevens/unpv13e/libfree/inet_pton.c:134-218 | for every text that spells out all sixteen bytes, in groups of any spelling or with a dotted tail, and has a `::`, the bytes behind it become zero, so it is ignored if and only if they were |
| `InetText.DoubledColonZeroes` | assign3/Stevens/unpv13e/libfree/inet_pton.c:134-218 | doubling any colon of a full address keeps the bytes in front of it and zeroes those behind it; the address is read as before if and only if those were zero |
| `InetGrammar.Parse4Exactly` | assign3/Stevens/unpv13e/libfree/inet_pton.c:86-125 | a text is accepted as IPv4 with value b if and only if it is four non-empty decimal numbers of at most 255 joined by dots, with the values b |
| `InetGrammar.Read6Exactly` | assign3/Stevens/unpv13e/libfree/inet_pton.c:140-204 | for every text, the bytes read and the place of `::` are what its pieces between colons say: groups of hexadecimal digits of at most 0xffff, one empty piece, and last a group, a dotted address or nothing |
| `InetGrammar.Parse6Exactly` | assign3/Stevens/unpv13e/libfree/inet_pton.c:197-224 | the address is the bytes read, with zeros for what is missing at the gap, byte by byte; without a gap there must be sixteen |
| `InetGrammar.TrailingColonIgnored` | assign3/Stevens/unpv13e/libfree/inet_pton.c:131-175 | one colon behind the last group changes nothing, for every text that ends in a group |
| `InetPrinted.QuadExactly` | assign3/Stevens/unpv13e/libfree/inet_ntop.c:85-101 | the dotted form is four decimal numbers without leading zeros, joined by dots |
| `InetPrinted.EmbedsIff` | assign3/Stevens/unpv13e/libfree/inet_ntop.c:173-180 | an address ends in a dotted form if and only if it begins with twelve zero bytes and not fourteen, or with ten and two of 0xff |
| `InetPrinted.Print6Exactly` | assign3/Stevens/unpv13e/libfree/inet_ntop.c:158-187 | the pieces between the colons are the words outside the best run, in order, in lower-case hexadecimal without leading zeros, the last two as a dotted form exactly for those addresses, and empty ones for the run and for an end where nothing else stands |
| `InetCode.InetNtop4` | assign3/Stevens/unpv13e/libfree/inet_ntop.c:85-101 | stores the dotted form and its NUL if and only if it is shorter than the room, refuses if and only if it is longer, and has no room for the NUL if and only if it is exactly as long |
| `InetCode.CopyWords` | assign3/Stevens/unpv13e/libfree/inet_ntop.c:132-134 | the byte loop gives the eight words |
| `InetCode.FindRun` | assign3/Stevens/unpv13e/libfree/inet_ntop.c:135-156 | the loop finds the leftmost longest zero run of at least two words |
| `InetCode.InetNtop6` | assign3/Stevens/unpv13e/libfree/inet_ntop.c:109-198 | stores the text of `Print6Exactly` and its NUL, or refuses exactly if they do not fit; its 46-character buffer is never exceeded, NULs included |
| `InetCode.InetPton4` | assign3/Stevens/unpv13e/libfree/inet_pton.c:86-125 | accepts exactly the dotted texts of `Parse4Exactly`, with their bytes, and leaves the destination alone otherwise |
| `InetCode.ShiftTail` | assign3/Stevens/unpv13e/libfree/inet_pton.c:205-218 | the in-place shift puts the bytes behind the gap at the end and zeros in between |
| `InetCode.InetPton6` | assign3/Stevens/unpv13e/libfree/inet_pton.c:140-224 | accepts exactly the texts of `Read6Exactly` that make up sixteen bytes, with their bytes, in-place buffer and embedded IPv4 included, and leaves the destination alone otherwise |
| `InCksum.TwoFoldsSuffice` | assign3/Stevens/unpv13e/libfree/in_cksum.c:28-30 | two folds reduce every 32-bit sum to its ones'-complement form |
| `InCksum.WordAt` | assign3/Stevens/unpv13e/libfree/in_cksum.c:16-25 | each word is its two bytes in the order of the host, with zero for a missing last one |
| `InCksum.InCksum` | assign3/Stevens/unpv13e/libfree/in_cksum.c:3-32 | the complemented ones'-complement sum for up to 65537 words; for any length a C `int` can hold, that sum if and only if the words add up to less than 2^32; and the exact value with wrap-around in all cases |
| `InCksum.StoredChecksumVerifies` | assign3/Stevens/unpv13e/ping/send_v4.c:18-19 | a checksum stored in a zeroed aligned field makes the checksum of the whole 0 |
| `InCksum.StampAndVerify` | assign3/Stevens/unpv13e/ping/send_v4.c:18-19 | the same on bytes, computing, storing and computing again |
| `InCksum.HostOrderDoesNotMatter` | assign3/Stevens/unpv13e/libfree/in_cksum.c:3-32 | hosts of either byte order leave the same two bytes in memory |
| `InCksum.RightIff` | assign3/Stevens/unpv13e/libfree/in_cksum.c:16-30 | the folded 32-bit accumulator is the ones'-complement sum if and only if it has not wrapped around |
| `InCksum.LongerCanFail` | assign3/Stevens/unpv13e/libfree/in_cksum.c:3-32 | 65537 words is the exact length bound: for every greater number of words there are words the answer is wrong for |
| `SigioRing.Ring.SigIo` | assign3/Stevens/unpv13e/sigio/dgecho01.c:78-108 | appends what was read, leaves the slot being sent alone, the write before every `recvfrom` included, stays in range with `cntread`, and survives exactly if no read fails and a slot stays free |
| `SigioRing.Ring.MainStep` | assign3/Stevens/unpv13e/sigio/dgecho01.c:56-73 | each statement of the main loop keeps the ring in order |
| `SigioRing.Ring.Run` | assign3/Stevens/unpv13e/sigio/dgecho01.c:56-108 | in every interleaving what has arrived is what the delivered batches hold, or a first part of it once the process is stopped, which happens if and only if one of them holds a failure or fills the ring; the echoed datagrams are a prefix of it, and all of it whenever the loop waits with nothing counted |
| `SigioRing.ReceivedExactly` | assign3/Stevens/unpv13e/sigio/dgecho01.c:85-106 | the handler takes the datagrams of the batch themselves, in order, and stops only for lack of room, at the end or at a failure |
| `SigioRing.ArrivedIsSupplied` | assign3/Stevens/unpv13e/sigio/dgecho01.c:56-108 | the statement of `Run` about what has arrived and when the process is stopped, for every script |
| `SigioRing.AllSentInTime` | assign3/Stevens/unpv13e/sigio/dgecho01.c:56-73 | without further signals the main loop sends everything counted in at most seven statements each and one more, and then waits |
| `ConnQueue.Server.Put` | assign3/Stevens/unpv13e/server/serv08.c:35-47 | stores behind the untaken descriptors, gives up exactly if the ring is full, and wakes a waiting thread |
| `ConnQueue.Server.Get` | assign3/Stevens/unpv13e/server/pthread08.c:20-32 | takes the oldest descriptor, or waits if there is none |
| `ConnQueue.Server.Run` | assign3/Stevens/unpv13e/server/pthread08.c:13-33 | in every schedule, spurious wake-ups included, exactly the offered descriptors are accepted, each goes to one thread in that order, the server stops if and only if the ring fills up, and a queued descriptor never leaves all threads asleep |
| `ConnQueue.NotAllAsleep` | assign3/Stevens/unpv13e/server/pthread08.c:20-32 | if waiting implies a woken thread for every queued descriptor, then a queued descriptor means that some thread is not waiting |
| `ConnQueue.AcceptedIsOffered` | assign3/Stevens/unpv13e/server/serv08.c:35-47 | the statement of `Run` about what is accepted and when the server stops, for every schedule |
| `ConnQueue.OneThreadServesAll` | assign3/Stevens/unpv13e/server/pthread08.c:13-33 | any one thread that keeps going round serves all queued descriptors, oldest first, one each time |
| `Copier.StrCli.Step` | assign3/Stevens/unpv13e/nonblock/strclinonb.c:28-123 | one pass: which reads and writes are made, what each moves, and whether the loop goes on, returns or fails |
| `Copier.StrCli.Run` | assign3/Stevens/unpv13e/nonblock/strclinonb.c:22-123 | for every pattern of partial reads and writes, both ways what is written is a prefix of what was read; the FIN is sent once, exactly when the input has ended and all of it is written; and that is so once as many passes that write something follow the end of the input as bytes were left |
| `Copier.PassReads` | assign3/Stevens/unpv13e/nonblock/strclinonb.c:30-82 | what a pass reads: when it reads at all, and then as much as there is and fits |
| `Copier.PassWritesOut` | assign3/Stevens/unpv13e/nonblock/strclinonb.c:85-100 | a write to standard output is made if and only if bytes were there and it is writable, or the pass read some; exactly the bytes it takes of those pending are gone, and the buffer starts again if and only if that empties it |
| `Copier.PassWritesSock` | assign3/Stevens/unpv13e/nonblock/strclinonb.c:102-121 | the same for the socket |
| `Copier.PassEnds` | assign3/Stevens/unpv13e/nonblock/strclinonb.c:40-123 | exactly which failures and ends stop the loop, and which end is normal |
| `Copier.InputFlushed` | assign3/Stevens/unpv13e/nonblock/strclinonb.c:102-121 | after the end of the input, that many passes that write something write all of it |
| `Copier.BoundedDelay` | assign3/Stevens/unpv13e/nonblock/strclinonb.c:22-123 | at every point at most a buffer of bytes is held back either way, and a normal end comes only after the end of the input |
| `Copier.TakenIsSupplied` | assign3/Stevens/unpv13e/nonblock/strclinonb.c:42-96 | what counts as read is exactly what the reads handed over, in order |
| `ReadLine.Reader.MyRead` | assign3/Stevens/unpv13e/lib/readline.c:8-26 | hands out the next pending byte, through EINTR and any split of the stream |
| `ReadLine.Reader.Readline` | assign3/Stevens/unpv13e/lib/readline.c:28-49 | line and return value depend only on the pending bytes and `maxlen`, and delivered plus pending bytes stay the stream |
| `ReadLine.LineAndResult` | assign3/Stevens/unpv13e/lib/readline.c:28-49 | which line and which result the pending bytes give: at a newline, at the end of the stream, or for lack of room |
| `ReadLine.ZeroAtTheEnd` | assign3/Stevens/unpv13e/lib/readline.c:28-49 | the result is 0 at the end of the stream with room for a character, and never else |
| `ReadLine.ReadLines` | assign3/Stevens/unpv13e/lib/readline.c:28-49 | so do the first n lines of a stream |
| `ReadLine.NothingLost` | assign3/Stevens/unpv13e/lib/readline.c:8-49 | the lines and what is left always make up the stream |

## Left out

- LoopFreedom.LoopFree: excludes steps that delete an entry for a tracked address, let an intermediate node answer for one, or re-send a parked frame that another node had from one; the code does not keep loop freedom across any of them (`LateFrameMakesALoop`, `ProxyAnswerMakesALoop`, `ResentFramesMakeALoop`). The condition is sufficient; which single steps of these kinds happen to be harmless is not characterised.
- HonestHops.HopCountsAreReal: excludes re-sending a frame parked on the way and answering from an entry learnt from an originator's parked frame, whose hop field holds an id; with either of them it fails (`InventedHops`).
- EndToEnd.MessageArrives: assumes what it lists; the condition on newer frames of the source is needed (`NewerRequestStrandsMessage`). It also assumes that no other client at the source asks for the same destination meanwhile. It does not say that the message is handed over only once, nor bound how long that takes.
- ShortestHop.ShortestHops: assumes that no frame of this flood is lost, that no entry for its source is deleted while it lasts, and that its source sends nothing else with the flood's id or a later one, which is needed (`NewerRequestStrandsMessage`); any other traffic is allowed.
- FloodTermination.FloodTerminates: assumes that the (source, id) was not in use before, that the network does not duplicate frames of this flood, that no entry for its source is deleted, and that only forwarding sends more of its frames.
- NodeHistory.ForcedDiscoveryOnce: holds until the entry for the source is deleted, because that entry is what the source checks against.
- OdrNode.Odr.SendRrepPacket: the source function with its `swap` argument is two methods here.
- SigioRing.Ring.SigIo: the handler is one step with respect to the main loop, as signals are blocked inside it.
- InetCode.InetNtop4: the character behind the room given, where the NUL would go, is not modelled.
- ConnQueue.Server.Put: what runs under the mutex is one step, and so is `Get`.
- Sockets, `select`, Ethernet headers, interface discovery, name lookup, printing, and failures of `send`, `get_self_ip` and `malloc`. A frame sent on an interface that is not plugged in goes nowhere.
- The source hardware address of a frame is the one of the sending plug, as the topology gives it.
- C `int` fields are unbounded integers, so overflow of ids and hop counts is not modelled; the byte swap leaves alone values that no `int` can hold. Hosts are little-endian for the ODR frame.
- Received and parked frames are values: the source allocates a new frame for every receipt and never shares one.
- The strings exchanged with clients (`sscanf`, `sprintf`) and C string sizes; requests arrive parsed.
- `client_and.c` and `server_and.c`: prompts, an alarm and thin loops.
- `remove_r_entry` and `get_file_name`, which are never called.
- The rest of the Stevens tree, `rtt.c` included.
