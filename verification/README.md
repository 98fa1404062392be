# A model of the gateway's protocol cores

The repository is the firmware of an ATmega256RFR2 gateway between a Lightweight Mesh radio network and
MQTT. These Dafny modules model its protocol cores and prove what the code relies on:

- **Network layer** (`types`, `nwk_state`, `nwk_steps`, `nwk_invariants`, `nwk_runs`, `nwk_run_requests`,
  `nwk_received`, `nwk_rx_runs`, `nwk_delivery`, `nwk_traffic`, `nwk_run_routes`, `nwk_run_breaks`, `nwk_progress`,
  `nwk_stack`): frame pool, transmitter, receiver and request queue as one step machine. Frame pointers of finished
  requests go stale and their frames are reused, so correct confirmation rests on an invariant over all
  runs: who owns a frame, and in what order requests sit in the queue. Every request does get its
  callback, within a bounded number of turns, and its frame carries what the application submitted. A received
  frame is followed from the PHY to the application or to the next hop, and nothing else is handed over or sent.
  The class `Network` has the same handlers as methods over arrays and fields, each proved equal to its step.
- **Bounded tables** (`nwk_duplicates`, `nwk_route`): the sliding duplicate windows refine unbounded
  sets over whole runs, the ranked routing table a finite map.
- **Route discovery** (`nwk_discovery`, `nwk_discovery_effects`, `nwk_discovery_replies`, `nwk_discovery_expiry`;
  concrete runs in `nwk_small_networks`, `nwk_two_sources`, `nwk_expiry_loop`): N nodes, their requests and replies
  in flight; loop freedom of the way to the source and of the installed routes, and the end of the flood, under any
  loss, delay and reordering.
- **Timer queue** (`sys_timer_list`, `sys_timer_runs`, `sys_timer`): the delta-encoded linked list refines a queue
  of absolute deadlines, also when handlers start and stop timers while time is consumed, and however the time is
  dealt out.
- **Frame encryption** (`nwk_security`, `nwk_cipher_feedback`): cipher feedback over an arbitrary block function;
  decryption inverts encryption, and a frame passes exactly if its code is right.
- **MQTT codec** (`mqtt_packet`, `mqtt_publish`, `mqtt_subscribe`, `mqtt_connect`, `mqtt_read`, `mqtt_transport`,
  `mqtt_wire`, `mqtt_refused`, `mqtt_topic`): length arithmetic, serializers that stay inside their buffer and write
  the packets of the standard octet by octet, round trips, the resumable reader, the topic matcher.
- **JSON parser** (`json_lexer`, `json_parser`, `json_round_trip`, `json_spaces`, `json_grammar`, `json_parser_loop`,
  `json_decoder`): the loop over an explicit stack refines a recursive grammar; parsing inverts printing, with any
  spaces, exactly within the limits and on clean nodes.

Where the source rewrites memory, a class or a method over arrays does the same and is proved against a
function on values; the theorems are about these functions. `dafny verify dfyconfig.toml` checks all of it.

Some things the source seems to promise hold only in part. They are proved with their exact condition, where
nothing else is said:

- The duplicate window is right exactly within its reach (`Duplicates.ReachIsExact`), and outside it some run gets a
  wrong verdict (`Duplicates.OutOfReachMisjudges`).
- A frame with source 0xffff can break the routing table (`Routing.UnknownSource`, `Routing.UnknownSourceBreaks`,
  in a run `NetRunBreaks.BrokenInARun`).
- The way to the source of a discovery can form a loop when an entry expires before the flood is over
  (`DiscoveryExpiry.LoopFreeInTime`, `ExpiryLoop.EarlyExpiryLoops`).
- Installed routes can form a loop when two sources look for one node (`DiscoveryReplies.RoutesLoopFree`,
  `TwoSources.TwoSourcesLoop`). These two conditions are sufficient and cannot be dropped, but are not
  proved to be the exact ones.
- The parser needs an empty stack, and an early return does not leave one (`JsonRoundTrip.NeedsEmptyStack`,
  `JsonRoundTrip.EarlyReturnLeavesFrames`).
- The parser never clears its nodes, so a later text is read back exactly when the fields it leaves unwritten
  happen to be clean (`JsonRoundTrip.RoundTrip`, `JsonRoundTrip.OldMembersStay`,
  `JsonRoundTrip.SecondCallKeepsOldMember`).
- The parser accepts texts that are not JSON: any token but `{` stands for a value (`JsonGrammar.ParsesByGrammar`,
  `JsonGrammar.CommaAsValue`).
- 256 timer interrupts between two calls are lost (`TimerRuns.DealingDoesNotMatter`, `TimerRuns.LostTime`).
- The packet length check is one byte too strict at four lengths (`MqttPacket.PacketLenIsEnough`), and the one
  for SUBACK too weak (`MqttSubscribe.SerializeSuback`, `MqttSubscribe.SubackCheck`, `MqttSubscribe.SubackOverrun`).
- A CONNECT of a version other than 3 and 4 is announced and checked 12 bytes too short
  (`MqttConnect.BodyLength`, `MqttConnect.SerializeConnect`).
- One code more than announced fits a SUBACK (`MqttSubscribe.SubackRoundTrip`).
- A bad PUBLISH topic, a bad SUBSCRIBE filter and a SUBACK without identifier can be reported as success
  (`MqttPublish.BadTopicCode`, `MqttSubscribe.BadFilterCode`, `MqttSubscribe.ShortSubackCode`).
- A PUBLISH or SUBSCRIBE that ends before its identifier is accepted, with the identifier taken from what lies
  behind it and, for a PUBLISH, a negative payload length (`MqttPublish.NegativePayload`,
  `MqttSubscribe.ShortSubscribe`).
- An empty last credential makes a CONNECT unreadable (`MqttConnect.ConnectRoundTrip`).
- A packet without a body is never returned by the non-blocking reader (`MqttRead.ChunkingIndependence`).
- The protocol name of a CONNECT is compared only as far as it goes (`MqttWire.VersionDecides`).
- `#` does not match the parent level (`MqttTopic.ParentIsNotMatched`).

## Model

| member | source | states |
|---|---|---|
| NetRuns.RightRequest | Project_LWM/Project_LWM/stack/nwk/src/nwkDataReq.c:168-184 | In every reachable state a waiting request is the first queued request with its frame pointer, that frame is in use and was sent for it, and every other request with the same pointer, if any, is an already confirmed one behind it. |
| NetRuns.OwnerCompleted | Project_LWM/Project_LWM/stack/nwk/src/nwkDataReq.c:168-184 | In every reachable state, when an owned frame is finished, the search by frame pointer finds the waiting request that the frame was sent for, confirms it with the frame's status, and changes no other request. |
| NetRuns.ExactlyOnce | Project_LWM/Project_LWM/stack/nwk/src/nwkDataReq.c:87-234 | In every reachable state each submission is either in the queue with no callback so far, or out of it with exactly one callback. |
| NetRuns.NoFalseSuccess | Project_LWM/Project_LWM/stack/nwk/src/nwkTx.c:182-231 | A request that asked for an acknowledgment is confirmed with success if and only if its own frame was sent, the PHY succeeded, and an acknowledgment with its number was heard while the frame waited for it; it then reports the control byte of that acknowledgment. |
| NetRuns.BusyCount | Project_LWM/Project_LWM/stack/nwk/src/nwkFrame.c:80-104 | After every step `nwkIb.lock` is frames in use + queued requests + (1 if the PHY has a frame) + application locks, and exactly the PHY's frame is in WAIT_CONF. |
| NetRuns.NothingWaitsUnarmed | Project_LWM/Project_LWM/stack/nwk/src/nwkTx.c:205-262 | A frame in WAIT_DELAY or WAIT_ACK, or a live duplicate entry, implies that its timer is armed; the counters lie in 1..8 and 1..41. |
| NetRuns.WaitsAreBounded | Project_LWM/Project_LWM/stack/nwk/src/nwkTx.c:205-262 | In any run a frame leaves WAIT_DELAY by the 8th firing of the delay timer and WAIT_ACK by the 41st firing of the acknowledgment timer. |
| NetRuns.RunKeeps | Project_LWM/Project_LWM/stack/nwk/src/nwkTx.c:297-378 | The invariant of the whole layer (pool, queue, ownership, lock, history, duplicate table) holds after every run of events. |
| NetRuns.StepKeeps | Project_LWM/Project_LWM/stack/nwk/src/nwkRx.c:483-521 | ... and is kept by each single event. |
| NetRuns.StartKeeps | Project_LWM/Project_LWM/stack/nwk/src/nwkFrame.c:70-76 | ... and holds after initialization. |
| NetRunRoutes.RoutesGoodInRuns | Project_LWM/Project_LWM/stack/nwk/src/nwkRoute.c:79-364 | In every run in which no frame with source 0xffff is received, the routing table is good in every state: unique live destinations, ranks of free and live slots apart, scores in 1..3. |
| NetRunRoutes.RxStepFollows | Project_LWM/Project_LWM/stack/nwk/src/nwkRx.c:483-521 | A turn of the receiver makes no newly received frame and keeps a good routing table good. |
| NetRunRoutes.TxStepFollows | Project_LWM/Project_LWM/stack/nwk/src/nwkTx.c:297-378 | The same for a turn of the transmitter. |
| NetProgress.CallbackComes | Project_LWM/Project_LWM/stack/nwk/src/nwkDataReq.c:209-234 | In every reachable state 111 rounds per frame of the pool and 57 per queued request, each with a run of the transmitter and of the request queue, an answer of the PHY and a firing of both timers, with no new work in between, are enough for every submission so far to have had its callback, exactly once. |
| NetProgress.QueueEmpties | Project_LWM/Project_LWM/stack/nwk/src/nwkTx.c:297-378 | After as many such rounds as frames and requests still have turns to take the queue is empty. |
| NetProgress.QuietMoves | Project_LWM/Project_LWM/stack/nwk/src/nwkTx.c:205-378 | An event without new work lowers what is left to do or changes no frame and no request; it lowers it when something is ready for it. |
| NetRunBreaks.BrokenInARun | Project_LWM/Project_LWM/stack/nwk/src/nwkRoute.c:194-232 | A run from the initialized state, 100 broadcasts and one more with source 0xffff, after which the table's invariant is broken; before the last frame it holds. |
| NetRequests.RightCargo | Project_LWM/Project_LWM/stack/nwk/src/nwkDataReq.c:111-162 | In every reachable state the frame of a waiting request carries the data that the application submitted under the request's ticket, from this node to the destination and endpoints asked for and with the flags asked for; its next hop is everybody for a broadcast or without a route, the destination for a link-local frame or one to all PANs, and otherwise the hop that the map of routes had when it was sent. |
| NetRequests.SubmissionIsLogged | Project_LWM/Project_LWM/stack/nwk/src/nwkDataReq.c:87-105 | A submission is recorded as it was made and enters the queue in front, unless its request object is still in use. |
| NetRequests.NewestLeaves | Project_LWM/Project_LWM/stack/nwk/src/nwkDataReq.c:188-234 | The queue serves the request that was submitted last among those that do not wait; a finished one leaves the queue with its callback. |
| NetRequests.NewestIsSent | Project_LWM/Project_LWM/stack/nwk/src/nwkDataReq.c:111-234 | ... and a new one takes the first free frame, which enters the transmitter with the next numbers and the hop known now, or is finished for lack of memory. |
| NetRequests.WaitsAreExact | Project_LWM/Project_LWM/stack/nwk/src/nwkTx.c:205-262 | In any run a frame with k firings of its timer to go still waits after fewer of them, and the k-th one sends it, or confirms it without acknowledgment. |
| NetRequests.WaitsBegin | Project_LWM/Project_LWM/stack/nwk/src/nwkTx.c:297-378 | Only broadcasts wait before they are sent, for 1 to 8 firings; an acknowledgment is waited for 41 firings, exactly if the request asked for one and the PHY succeeded. |
| NetRequests.StatusReported | Project_LWM/Project_LWM/stack/nwk/src/nwkTx.c:266-292 | What a callback reports is what happened: out of memory if no frame was sent, otherwise the status of the PHY unless an acknowledgment decided. |
| NetRequests.TimersRestart | Project_LWM/Project_LWM/stack/nwk/src/nwkTx.c:205-262 | A timer that fires is started again exactly if something waited for it. |
| NetRequests.HopByControl | Project_LWM/Project_LWM/stack/nwk/src/nwkTx.c:109-155 | The next hop, the PAN and the frame type of an outgoing frame by the bits of its control byte and the map of routes. |
| NetRequests.JitterIsEven | Project_LWM/Project_LWM/stack/nwk/src/nwkTx.c:145-149 | Each delay from 1 to 8 comes up for one in eight random numbers. |
| NetRequests.PoolSize | Project_LWM/Project_LWM/config.h:77-82 | The pool has 30 frames in every reachable state, and the routing table 100 slots. |
| NetReceived.FirstTurn | Project_LWM/Project_LWM/stack/nwk/src/nwkRx.c:292-419 | What the receiver does with each received frame: up, on, or dropped, exactly by whom it is for and whether it is new; a new broadcast for others is copied once into a free frame, with a new MAC header. |
| NetReceived.WindowTimer | Project_LWM/Project_LWM/stack/nwk/src/nwkRx.c:200-253 | Exactly a first frame from a source starts the timer of the duplicate windows. |
| NetReceived.HandlerIsTold | Project_LWM/Project_LWM/stack/nwk/src/nwkRx.c:431-446 | What the handler of an endpoint is told about a frame, field by field. |
| NetReceived.ApplicationTurn | Project_LWM/Project_LWM/stack/nwk/src/nwkRx.c:423-479 | A frame for an open endpoint is handed over once, the application's actions are performed, and an acknowledgment with the control byte they set is sent exactly when it is due. |
| NetReceived.ClosedTurn | Project_LWM/Project_LWM/stack/nwk/src/nwkRx.c:423-479 | A frame for a closed endpoint goes no further; one that was flooded to this node is acknowledged all the same. |
| NetReceived.ServiceTurn | Project_LWM/Project_LWM/stack/nwk/src/nwkRx.c:257-288 | A command is handed to the service endpoint, and acknowledged when that is due. |
| NetReceived.AckCommand | Project_LWM/Project_LWM/stack/nwk/src/nwkTx.c:182-201 | A well-formed acknowledgment ends the wait of the first frame that waits for its number, and of no other; it is taken exactly if there is one. |
| NetReceived.RouteErrorCommandTaken | Project_LWM/Project_LWM/stack/nwk/src/nwkRoute.c:344-354 | A well-formed route error drops exactly the route it names, unless that is fixed. |
| NetReceived.OtherCommand | Project_LWM/Project_LWM/stack/nwk/src/nwkRx.c:264-287 | Any other command changes nothing. |
| NetReceived.RouteTurn | Project_LWM/Project_LWM/stack/nwk/src/nwkRoute.c:299-340 | A frame for another node leaves for the hop of the map of routes with its network header and payload as they were; without a hop it is dropped and its source is sent a route error that names both addresses. |
| NetReceived.LastTurn | Project_LWM/Project_LWM/stack/nwk/src/nwkRx.c:483-521 | A finished frame is freed. |
| NetDelivery.FirstRun | Project_LWM/Project_LWM/stack/nwk/src/nwkRx.c:292-419 | In every run, from the PHY's indication of a data frame on: in the next run of the receiver the frame is marked for indication exactly if it is for this node and new, for routing exactly if it came here on its way to another node and is new, and otherwise finished; a new broadcast for others is sent on with its payload. |
| NetDelivery.SecondRun | Project_LWM/Project_LWM/stack/nwk/src/nwkRx.c:423-521 | In the run after that an indicated frame reaches the handler of its endpoint once, with its header and payload, the application's actions for it are performed, and the frame is finished. |
| NetDelivery.OnwardRun | Project_LWM/Project_LWM/stack/nwk/src/nwkRoute.c:299-340 | ... and a frame for another node is sent on to the hop of the map of routes, or its source is told. |
| NetDelivery.LastRun | Project_LWM/Project_LWM/stack/nwk/src/nwkRx.c:483-521 | ... and a finished frame is freed. |
| NetDelivery.AckConfirms | Project_LWM/Project_LWM/stack/nwk/src/nwkTx.c:182-201 | In every run an indicated acknowledgment confirms the first frame that waits for its number, with its control byte. |
| NetDelivery.IndicatedOnce | Project_LWM/Project_LWM/stack/nwk/src/nwkRx.c:292-449 | No other frame is indicated: in every run the handlers are called with given contents at most as often as the PHY delivered a frame with these contents that is for this node. |
| NetTraffic.FirstTurnLearns | Project_LWM/Project_LWM/stack/nwk/src/nwkRx.c:292-341 | The first turn of a frame sets the route to its source in the map of routes and changes no other, but for one that makes room; a duplicate that comes back to this node costs the route to its destination. |
| NetTraffic.FilteredTeachNothing | Project_LWM/Project_LWM/stack/nwk/src/nwkRx.c:292-334 | A filtered frame changes no route. |
| NetTraffic.LeavesTeachNothing | Project_LWM/Project_LWM/stack/nwk/src/nwkRoute.c:194-209 | Nor does one that a node passed on which does not route for others. |
| NetTraffic.FinishedReports | Project_LWM/Project_LWM/stack/nwk/src/nwkTx.c:297-378 | A finished frame reports its status for the route to its destination: a success makes the route patient again, a third failure in a row drops it, and no other route changes. |
| NetTraffic.NothingMadeUp | Project_LWM/Project_LWM/stack/nwk/src/nwkTx.c:109-178 | In every run each outgoing frame is one of a request, an acknowledgment or route error of the node's own, or one that the PHY delivered from another node in that run, with its network header and payload unchanged. |
| NetInvariants.SubmitKeeps | Project_LWM/Project_LWM/stack/nwk/src/nwkDataReq.c:87-105 | A submission that is not queued yet keeps the invariant. |
| NetInvariants.TxConfKeeps | Project_LWM/Project_LWM/stack/nwk/src/nwkDataReq.c:168-184 | Reporting a finished frame confirms its owner, frees the frame and keeps the invariant. |
| NetInvariants.ConfirmKeeps | Project_LWM/Project_LWM/stack/nwk/src/nwkDataReq.c:188-204 | Removing a confirmed request with its callback keeps the invariant. |
| NetInvariants.DataReqTaskKeeps | Project_LWM/Project_LWM/stack/nwk/src/nwkDataReq.c:209-234 | Serving the first request that is not waiting keeps the invariant, with and without memory. |
| NetInvariants.TxStepKeeps | Project_LWM/Project_LWM/stack/nwk/src/nwkTx.c:297-378 | Every state of the transmitter keeps the invariant. |
| NetInvariants.PhyConfKeeps | Project_LWM/Project_LWM/stack/nwk/src/nwkTx.c:286-293 | The PHY's confirmation keeps the invariant. |
| NetInvariants.AckTickKeeps | Project_LWM/Project_LWM/stack/nwk/src/nwkTx.c:205-223 | Counting down or expiring a wait for an acknowledgment keeps the invariant, except that the timer is to be re-armed. |
| NetInvariants.DelayTickKeeps | Project_LWM/Project_LWM/stack/nwk/src/nwkTx.c:244-262 | The same for the delay timer. |
| NetInvariants.PhyIndKeeps | Project_LWM/Project_LWM/stack/nwk/src/nwkRx.c:116-132 | Receiving a frame keeps the invariant, also with an empty pool. |
| NetInvariants.HandleReceivedKeeps | Project_LWM/Project_LWM/stack/nwk/src/nwkRx.c:292-419 | Filtering, learning, duplicate rejection, repeating and handing on keep the invariant. |
| NetInvariants.HandleIndicationKeeps | Project_LWM/Project_LWM/stack/nwk/src/nwkRx.c:453-479 | Indication, the handler's calls into the stack and the acknowledgment keep the invariant. |
| NetInvariants.RouteFrameKeeps | Project_LWM/Project_LWM/stack/nwk/src/nwkRoute.c:299-340 | Forwarding a frame, or dropping it with a route error, keeps the invariant. |
| NetInvariants.RejectDuplicateKeeps | Project_LWM/Project_LWM/stack/nwk/src/nwkRx.c:200-253 | Duplicate rejection keeps the invariant, including distinct live sources. |
| NetStack.Network.constructor | Project_LWM/Project_LWM/stack/nwk/src/nwk.c:70-95 | The initialized object is the start state of the runs: all frames free, the queue and both tables empty, the invariant holding. |
| NetStack.Network.FrameAlloc | Project_LWM/Project_LWM/stack/nwk/src/nwkFrame.c:80-96 | Allocation takes the first free slot and counts it; none is left untouched. |
| NetStack.Network.FrameFree | Project_LWM/Project_LWM/stack/nwk/src/nwkFrame.c:100-107 | Freeing a frame in use releases the slot and the count. |
| NetStack.Network.SendToAir | Project_LWM/Project_LWM/stack/nwk/src/nwkTx.c:109-155 | The header, jitter and state of a frame that enters the transmitter are those of the step function. |
| NetStack.Network.TxBroadcastFrame | Project_LWM/Project_LWM/stack/nwk/src/nwkTx.c:159-178 | The copy of a repeated broadcast. |
| NetStack.Network.TxAckReceived | Project_LWM/Project_LWM/stack/nwk/src/nwkTx.c:182-201 | The first frame that waits for this number is confirmed with its control byte. |
| NetStack.Network.AckWaitTimerHandler | Project_LWM/Project_LWM/stack/nwk/src/nwkTx.c:205-223 | The loop over the pool is the step of the acknowledgment timer, including the re-arming. |
| NetStack.Network.DelayTimerHandler | Project_LWM/Project_LWM/stack/nwk/src/nwkTx.c:244-262 | The loop over the pool is the step of the delay timer. |
| NetStack.Network.DataConf | Project_LWM/Project_LWM/stack/nwk/src/nwkTx.c:286-293 | The PHY's confirmation is the step function's. |
| NetStack.Network.TxTaskHandler | Project_LWM/Project_LWM/stack/nwk/src/nwkTx.c:297-378 | The loop over the pool is the step of the transmitter. |
| NetStack.Network.DataReq | Project_LWM/Project_LWM/stack/nwk/src/nwkDataReq.c:87-105 | A submission enters at the head of the queue. |
| NetStack.Network.DataReqSendFrame | Project_LWM/Project_LWM/stack/nwk/src/nwkDataReq.c:111-162 | A request gets a frame, or is confirmed for lack of memory. |
| NetStack.Network.DataReqTxConf | Project_LWM/Project_LWM/stack/nwk/src/nwkDataReq.c:168-184 | The search loop completes the first request with this frame pointer. |
| NetStack.Network.DataReqConfirm | Project_LWM/Project_LWM/stack/nwk/src/nwkDataReq.c:188-204 | The request leaves the list and its callback is called. |
| NetStack.Network.DataReqTaskHandler | Project_LWM/Project_LWM/stack/nwk/src/nwkDataReq.c:209-234 | The search loop serves the first request that is not waiting. |
| NetStack.Network.DataInd | Project_LWM/Project_LWM/stack/nwk/src/nwkRx.c:116-132 | The PHY's indication fills the first free frame. |
| NetStack.Network.RxRejectDuplicate | Project_LWM/Project_LWM/stack/nwk/src/nwkRx.c:200-253 | The verdict, the table, the removed route and the started timer are the step function's. |
| NetStack.Network.HandleReceivedFrame | Project_LWM/Project_LWM/stack/nwk/src/nwkRx.c:292-419 | The branches of the receiver's filter are the step function's. |
| NetStack.Network.RxIndicateFrame | Project_LWM/Project_LWM/stack/nwk/src/nwkRx.c:257-449 | Commands and application data reach their handlers. |
| NetStack.Network.RxHandleIndication | Project_LWM/Project_LWM/stack/nwk/src/nwkRx.c:453-479 | Indication and acknowledgment. |
| NetStack.Network.RouteReceivedFrame | Project_LWM/Project_LWM/stack/nwk/src/nwkRoute.c:299-340 | Forwarding or route error. |
| NetStack.Network.RxTaskHandler | Project_LWM/Project_LWM/stack/nwk/src/nwkRx.c:483-521 | The loop over the pool is the step of the receiver. |
| NetStack.Network.DuplicateTimerHandler | Project_LWM/Project_LWM/stack/nwk/src/nwkRx.c:181-196 | The loop over the duplicate table is the step of its timer. |
| NetStack.Network.Handle | Project_LWM/Project_LWM/stack/nwk/src/nwkTx.c:297-378 | Every event on the object is the step of the run on its value, so all run theorems hold of it. |
| Duplicates.WindowStep | Project_LWM/Project_LWM/stack/nwk/src/nwkRx.c:200-253 | One arrival in reach: the 8-bit window accepts it exactly when the unbounded set lacks it, and goes on standing for the set. |
| Duplicates.ReachIsExact | Project_LWM/Project_LWM/stack/nwk/src/nwkRx.c:200-253 | The window is right for every history if and only if the arrival is in reach of the newest number. |
| Duplicates.OutOfReachFails | Project_LWM/Project_LWM/stack/nwk/src/nwkRx.c:200-253 | For each number out of reach, a history on which the window errs. |
| Duplicates.OutOfReachMisjudges | Project_LWM/Project_LWM/stack/nwk/src/nwkRx.c:200-253 | For each jump out of reach, a run from a new entry that was in reach until then and in which the window and the set give different verdicts, at the jump or at the next frame. |
| Duplicates.WindowRefinesSet | Project_LWM/Project_LWM/stack/nwk/src/nwkRx.c:200-253 | Over every run of arrivals in reach the verdicts are those of the unbounded set. |
| Duplicates.ArriveDecides | Project_LWM/Project_LWM/stack/nwk/src/nwkRx.c:200-253 | The table: a live source's frame is accepted exactly when new; another one exactly when an entry has expired; all sources stay tracked. |
| Duplicates.ArriveKeepsSources | Project_LWM/Project_LWM/stack/nwk/src/nwkRx.c:200-253 | Live entries keep distinct sources. |
| Duplicates.TickTracks | Project_LWM/Project_LWM/stack/nwk/src/nwkRx.c:181-196 | Expiry only forgets: surviving entries stand for the same sets. |
| Duplicates.TableRefinesSessions | Project_LWM/Project_LWM/stack/nwk/src/nwkRx.c:181-253 | Over every run of frames from any sources and timer firings, in reach, the table's verdicts are those of at most 10 unbounded sets with expiry times, and the table goes on standing for them. |
| Duplicates.RunsRefineSessions | Project_LWM/Project_LWM/stack/nwk/src/nwkRx.c:181-253 | ... in particular for every run from the initial table. |
| Duplicates.DuplicateRejected | Project_LWM/Project_LWM/stack/nwk/src/nwkRx.c:181-253 | A frame accepted as the newest of its source is rejected when it comes again within 30 firings of the timer, whatever arrives in between, as long as it is in reach. |
| Duplicates.Table.RejectDuplicate | Project_LWM/Project_LWM/stack/nwk/src/nwkRx.c:200-253 | The loop over the array computes the table function and its verdict. |
| Duplicates.Table.TimerHandler | Project_LWM/Project_LWM/stack/nwk/src/nwkRx.c:181-196 | The countdown loop computes the tick and tells whether an entry is live. |
| Routing.NextHopIsLookup | Project_LWM/Project_LWM/stack/nwk/src/nwkRoute.c:91-101 | A lookup in the table is a lookup in the finite map it stands for. |
| Routing.EvictionIsFair | Project_LWM/Project_LWM/stack/nwk/src/nwkRoute.c:105-130 | A new entry takes a free slot when there is one and otherwise a live route of least rank; never a fixed one. |
| Routing.FrameReceivedRefines | Project_LWM/Project_LWM/stack/nwk/src/nwkRoute.c:164-232 | A known source keeps its hop unless the frame is better or answers a discovery, and then gets the frame's, with three attempts; an unknown one gets a route of rank 128 with three attempts, at the cost of the evicted one, if any. No other route changes. |
| Routing.UnknownSource | Project_LWM/Project_LWM/stack/nwk/src/nwkRoute.c:194-232 | With source 0xffff the invariant survives if and only if the frame is ignored or an unused slot matches. |
| Routing.UnknownSourceBreaks | Project_LWM/Project_LWM/stack/nwk/src/nwkRoute.c:194-232 | A full good table and one received broadcast with source 0xffff after which the invariant is broken. |
| Routing.RemoveRefines | Project_LWM/Project_LWM/stack/nwk/src/nwkRoute.c:134-190 | Removal removes one key, unless the route is fixed. |
| Routing.NormalizeKeeps | Project_LWM/Project_LWM/stack/nwk/src/nwkRoute.c:358-362 | Aging keeps every route and the order of ranks, brings each rank to the next number above half of it, and restores the rank bound. |
| Routing.FrameSentRefines | Project_LWM/Project_LWM/stack/nwk/src/nwkRoute.c:236-260 | A report drops the route exactly on a failure at score 1 and changes no other. |
| Routing.ThirdFailureDrops | Project_LWM/Project_LWM/stack/nwk/src/nwkRoute.c:236-260 | A fresh route survives two failures in a row and is dropped by the third. |
| Routing.DroppedByThreeInARow | Project_LWM/Project_LWM/stack/nwk/src/nwkRoute.c:236-260 | Over every sequence of reports about a freshly learned route, it is dropped exactly at the first report that is the third failure since the last success, and no other route changes. |
| Routing.SuccessSlot | Project_LWM/Project_LWM/stack/nwk/src/nwkRoute.c:248-253 | A success gives the route three attempts again and one more rank; at the top of the scale all ranks are halved. |
| Routing.SuccessIsPreferred | Project_LWM/Project_LWM/stack/nwk/src/nwkRoute.c:248-253 | A route that served outranks every route it was level with, unless ranks are halved. |
| Routing.Table.FindEntry | Project_LWM/Project_LWM/stack/nwk/src/nwkRoute.c:91-101 | The search loop. |
| Routing.Table.RouteNewEntry | Project_LWM/Project_LWM/stack/nwk/src/nwkRoute.c:105-130 | The eviction loop over ranks. |
| Routing.Table.RouteFreeEntry | Project_LWM/Project_LWM/stack/nwk/src/nwkRoute.c:134-153 | Clearing a slot that is not fixed. |
| Routing.Table.RouteRemove | Project_LWM/Project_LWM/stack/nwk/src/nwkRoute.c:183-190 | Removal in place. |
| Routing.Table.RouteFrameReceived | Project_LWM/Project_LWM/stack/nwk/src/nwkRoute.c:194-232 | Learning in place. |
| Routing.Table.RouteFrameSent | Project_LWM/Project_LWM/stack/nwk/src/nwkRoute.c:236-260 | Scores and ranks in place. |
| Routing.Table.RouteNormalizeRanks | Project_LWM/Project_LWM/stack/nwk/src/nwkRoute.c:358-362 | The aging loop. |
| Discovery.UpdateLq | Project_LWM/Project_LWM/stack/nwk/src/nwkRouteDiscovery.c:399-402 | Combined link quality is strictly below the incoming one, or 0. |
| Discovery.ReceiveEffect | Project_LWM/Project_LWM/stack/nwk/src/nwkRouteDiscovery.c:253-309 | A request creates or strictly improves the entry of its key, names the sender, touches no other key, and is only then sent on. |
| Discovery.InitiateEffect | Project_LWM/Project_LWM/stack/nwk/src/nwkRouteDiscovery.c:117-164 | Starting a discovery touches no running one. |
| Discovery.StepKeepsGood | Project_LWM/Project_LWM/stack/nwk/src/nwkRouteDiscovery.c:253-309 | Every start, delivery in any order, and loss keeps the network invariant. |
| Discovery.LoopFree | Project_LWM/Project_LWM/stack/nwk/src/nwkRouteDiscovery.c:253-309 | In every run of any network, following senders from a live entry meets no node twice and ends at the source. |
| Discovery.StepSpends | Project_LWM/Project_LWM/stack/nwk/src/nwkRouteDiscovery.c:277-306 | Every step lowers the combined room of the nodes and messages in flight. |
| Discovery.FloodStops | Project_LWM/Project_LWM/stack/nwk/src/nwkRouteDiscovery.c:277-306 | The length of every run is bounded: the flood stops. |
| Discovery.RebroadcastsBounded | Project_LWM/Project_LWM/stack/nwk/src/nwkRouteDiscovery.c:277-306 | A node rebroadcasts the same request at most 256 times in any run. |
| Discovery.Node.FindEntry | Project_LWM/Project_LWM/stack/nwk/src/nwkRouteDiscovery.c:253-275 | The search loop. |
| Discovery.Node.NewEntry | Project_LWM/Project_LWM/stack/nwk/src/nwkRouteDiscovery.c:168-190 | The first slot without a running discovery, and the started timer. |
| Discovery.Node.DiscoveryRequest | Project_LWM/Project_LWM/stack/nwk/src/nwkRouteDiscovery.c:117-164 | Starting a discovery in place. |
| Discovery.Node.RequestReceived | Project_LWM/Project_LWM/stack/nwk/src/nwkRouteDiscovery.c:253-309 | Receiving a request in place. |
| Discovery.Node.ReplyReceived | Project_LWM/Project_LWM/stack/nwk/src/nwkRouteDiscovery.c:342-373 | Receiving a reply in place: the entry, the routes that are set and the reply that is passed on. |
| Discovery.Node.TimerHandler | Project_LWM/Project_LWM/stack/nwk/src/nwkRouteDiscovery.c:194-219 | The timer in place: every entry ages, and the node's own expired discoveries end with their success. |
| DiscoveryEffects.LinkQuality | Project_LWM/Project_LWM/stack/nwk/src/nwkRouteDiscovery.c:399-402 | The combined quality is the 8-bit fraction of the product, symmetric and monotone. |
| DiscoveryEffects.IgnoresRequest | Project_LWM/Project_LWM/stack/nwk/src/nwkRouteDiscovery.c:253-290 | Exactly which requests a node ignores. |
| DiscoveryEffects.TakesRequest | Project_LWM/Project_LWM/stack/nwk/src/nwkRouteDiscovery.c:277-308 | What it records of any other, for how long, and whether it answers or passes it on. |
| DiscoveryEffects.Starts | Project_LWM/Project_LWM/stack/nwk/src/nwkRouteDiscovery.c:117-190 | When a discovery starts, with which entry and which request. |
| DiscoveryEffects.TakesReply | Project_LWM/Project_LWM/stack/nwk/src/nwkRouteDiscovery.c:342-357 | Exactly which replies count. |
| DiscoveryEffects.SetsRoutes | Project_LWM/Project_LWM/stack/nwk/src/nwkRouteDiscovery.c:353-370 | The routes that a reply sets at the source and on the way, and the reply that goes on. |
| DiscoveryEffects.Remembers | Project_LWM/Project_LWM/stack/nwk/src/nwkRouteDiscovery.c:194-219 | An entry is remembered, unchanged, for exactly the firings that its 1000 ms allow: ten for a new one. |
| DiscoveryEffects.EndsDiscoveries | Project_LWM/Project_LWM/stack/nwk/src/nwkRouteDiscovery.c:194-219 | Exactly which discoveries a firing of the timer ends, and with which outcome. |
| DiscoveryReplies.DestinationAnswers | Project_LWM/Project_LWM/stack/nwk/src/nwkRouteDiscovery.c:298-338 | The destination answers a request it takes to the node it came from, with the quality of the path and the best one for the way back, and routes to the source through that node. |
| DiscoveryExpiry.LoopFreeInTime | Project_LWM/Project_LWM/stack/nwk/src/nwkRouteDiscovery.c:194-309 | In every run with expiry in which no entry of a discovery expires while one of its requests is on its way, following senders of live entries meets no node twice. |
| DiscoveryExpiry.NextKeepsOrdered | Project_LWM/Project_LWM/stack/nwk/src/nwkRouteDiscovery.c:194-309 | Every start, delivery, loss and firing of a timer in time keeps the order: a sender adopted its path in a later flood, or in the same one with a better path. |
| ExpiryLoop.EarlyExpiryLoops | Project_LWM/Project_LWM/stack/nwk/src/nwkRouteDiscovery.c:194-309 | The condition is needed: a run with an entry that expires too early, after which two nodes name each other as sender. |
| DiscoveryReplies.NextKeeps | Project_LWM/Project_LWM/stack/nwk/src/nwkRouteDiscovery.c:253-373 | Every step of requests, replies and dropped routes keeps that a node took its best reply from a node closer to the destination. |
| DiscoveryReplies.RoutesLoopFree | Project_LWM/Project_LWM/stack/nwk/src/nwkRouteDiscovery.c:342-373 | In every run, whatever is lost, delayed, reordered or dropped, following the installed routes to a destination meets no node twice, if no other discovery sets routes to it. |
| DiscoveryReplies.RoutesLead | Project_LWM/Project_LWM/stack/nwk/src/nwkRouteDiscovery.c:342-373 | ... and, as long as no route is dropped, ends at the destination, from every node with a route. |
| TwoSources.TwoSourcesLoop | Project_LWM/Project_LWM/stack/nwk/src/nwkRouteDiscovery.c:342-373 | The condition is needed: a run with two sources looking for one node after which their routes to it point at each other. |
| DeltaList.PlaceRefines | Project_LWM/Project_LWM/stack/sys/src/sysTimer.c:144-183 | Placing a timer puts it at its interval from now and moves no other absolute deadline. |
| DeltaList.RemoveRefines | Project_LWM/Project_LWM/stack/sys/src/sysTimer.c:78-98 | Stopping a timer moves no other absolute deadline. |
| DeltaList.StartedRefines | Project_LWM/Project_LWM/stack/sys/src/sysTimer.c:102-108 | The search tells whether the timer has a deadline. |
| DeltaList.PerformRefines | Project_LWM/Project_LWM/stack/sys/src/sysTimer.c:70-98 | Any sequence of starts and stops acts on the list as on the queue of deadlines. |
| DeltaList.ConsumeRefines | Project_LWM/Project_LWM/stack/sys/src/sysTimer.c:112-140 | Consuming time fires the same timers in the same order as the queue of absolute deadlines, and leaves the same deadlines. |
| DeltaList.InsertDeadline | Project_LWM/Project_LWM/stack/sys/src/sysTimer.c:144-183 | In the map of deadlines only the placed timer changes. |
| DeltaList.InsertPlace | Project_LWM/Project_LWM/stack/sys/src/sysTimer.c:144-183 | A placed timer goes behind equal deadlines and before later ones. |
| DeltaList.InsertProper | Project_LWM/Project_LWM/stack/sys/src/sysTimer.c:144-183 | The queue stays in order, without a timer twice and without overdue ones. |
| DeltaList.DeleteDeadline | Project_LWM/Project_LWM/stack/sys/src/sysTimer.c:78-98 | In the map of deadlines only the stopped timer disappears. |
| DeltaList.DeleteProper | Project_LWM/Project_LWM/stack/sys/src/sysTimer.c:78-98 | ... and the queue stays proper. |
| DeltaList.FiresInOrder | Project_LWM/Project_LWM/stack/sys/src/sysTimer.c:112-140 | Timers fire in order of deadline within the elapsed span, and what is left is not due. |
| DeltaList.FiresOnTime | Project_LWM/Project_LWM/stack/sys/src/sysTimer.c:112-140 | A timer that no handler starts or stops fires exactly at its deadline and, if periodic, at every interval after it; one that is not due keeps its deadline. |
| DeltaList.NoDrift | Project_LWM/Project_LWM/stack/sys/src/sysTimer.c:112-140 | A periodic timer with deadline d and interval p fires (end - d) / p + 1 times, at d, d + p, ..., and the next deadline continues the row. |
| DeltaList.TaskFiresOnTime | Project_LWM/Project_LWM/stack/sys/src/sysTimer.c:112-140 | All of this for one call on the delta list. |
| DeltaList.ConsumeSpan | Project_LWM/Project_LWM/stack/sys/src/sysTimer.c:112-140 | With intervals up to a limit, every list formed during the call (before and after each firing, and after each command of each handler) has a sum of timeouts within it, so 32-bit timeouts never wrap. |
| TimerQueue.Queue.constructor | Project_LWM/Project_LWM/stack/sys/src/sysTimer.c:63-66 | The empty list. |
| TimerQueue.Queue.TimerStarted | Project_LWM/Project_LWM/stack/sys/src/sysTimer.c:102-108 | The walk along the links finds a timer exactly when it is on the list. |
| TimerQueue.Queue.TimerStart | Project_LWM/Project_LWM/stack/sys/src/sysTimer.c:70-74 | Starting in memory is starting on the value; a running timer is left alone. |
| TimerQueue.Queue.TimerStop | Project_LWM/Project_LWM/stack/sys/src/sysTimer.c:78-98 | Unlinking in memory is removal on the value; the chain stays acyclic. |
| TimerQueue.Queue.PlaceTimer | Project_LWM/Project_LWM/stack/sys/src/sysTimer.c:144-183 | Linking in memory is placement on the value; no timer twice. |
| TimerQueue.Queue.TaskHandler | Project_LWM/Project_LWM/stack/sys/src/sysTimer.c:112-140 | Consuming time in memory is consumption on the value, whatever the handlers start or stop; it ends. |
| TimerQueue.Queue.TimerInterrupt | Project_LWM/Project_LWM/stack/hal/atmega256rfr2/src/halTimer.c:89-92 | The interrupt counts in a byte. |
| TimerRuns.ConsumeInParts | Project_LWM/Project_LWM/stack/sys/src/sysTimer.c:112-140 | Time consumed in two parts fires the same timers in the same order, and leaves the same list, as when it is consumed at once. |
| TimerRuns.DealingDoesNotMatter | Project_LWM/Project_LWM/stack/sys/src/sysTimer.c:112-140 | However the interrupts are dealt out among the calls, if never 256 come between two of them: what has fired and what is left is what 10 ms for each counted interrupt amount to. |
| TimerRuns.LostTime | Project_LWM/Project_LWM/stack/hal/atmega256rfr2/src/halTimer.c:89-92 | With 256 interrupts before a call, their time is lost. |
| JsonLexer.NextToken | Project_LWM/Project_LWM/json/lexer.c:163-174 | A token is consumed, or an error is reported; input of at most 255 characters never hangs the 8-bit loops. |
| JsonLexer.ReadsText | Project_LWM/Project_LWM/json/lexer.c:40-65 | A quoted text without quotes, up to 255 characters, is one token with this text. |
| JsonLexer.ReadsNumber | Project_LWM/Project_LWM/json/lexer.c:67-98 | A row of digits is one token with its value. |
| JsonLexer.Lexer.LexString | Project_LWM/Project_LWM/json/lexer.c:40-65 | In the buffer: the text is terminated in place of its quote; earlier text stays. |
| JsonLexer.Lexer.LexNumber | Project_LWM/Project_LWM/json/lexer.c:67-98 | In the buffer: the value, with the overwritten character restored. |
| JsonLexer.Lexer.LexCore | Project_LWM/Project_LWM/json/lexer.c:100-161 | In the buffer: the token function, or a skipped character. |
| JsonLexer.Lexer.ReadToken | Project_LWM/Project_LWM/json/lexer.c:163-174 | In the buffer: the token function. |
| JsonLexer.SkipsBlanks | Project_LWM/Project_LWM/json/lexer.c:126-174 | Spaces and backslashes before a token, any number of them, change nothing. |
| JsonLexer.NoOtherToken | Project_LWM/Project_LWM/json/lexer.c:126-160 | Nothing but texts, digits and the four symbols is a token, and there is none at the end. |
| JsonLexer.LoneQuote | Project_LWM/Project_LWM/json/lexer.c:104-114 | A quote without a partner is passed over. |
| JsonLexer.TooLong | Project_LWM/Project_LWM/json/lexer.c:40-79 | A text or number of more than 255 characters is never left by the 8-bit loops. |
| JsonSpaces.SpacesDoNotMatter | Project_LWM/Project_LWM/json/parser.c:68-213 | From any stack and pool, a printed object with any number of spaces before each of its tokens is parsed as without them: same status, same nodes, same input left. |
| JsonSpaces.SpacedRoundTrip | Project_LWM/Project_LWM/json/parser.c:68-213 | The round trip for a printed object with any spaces. |
| JsonSpaces.SettingText | Project_LWM/Project_LWM/main.c:262-272 | The text {"mqtt_timer": 5} is read. |
| JsonGrammar.ParsesByGrammar | Project_LWM/Project_LWM/json/parser.c:68-213 | From an empty stack the loop does on every input, in any pool, what a recursive grammar says: it accepts the same texts, refuses others with the same status, leaves the same input, and has built the same nodes, also where it refuses. |
| JsonGrammar.CommaAsValue | Project_LWM/Project_LWM/json/parser.c:125-129 | The grammar is wider than that of JSON: a text with a comma as a value is accepted, and the member gets its own key for a value. |
| JsonParser.Step | Project_LWM/Project_LWM/json/parser.c:85-210 | An iteration consumes input or pops a frame, and does not hang on short input. |
| JsonParser.StepInBounds | Project_LWM/Project_LWM/json/parser.c:85-210 | The stack index, the node pointers and the node the next frame needs stay in bounds. |
| JsonParser.ParseIsSafe | Project_LWM/Project_LWM/json/parser.c:68-213 | For any input, after any earlier calls: bounds hold, input up to 255 characters returns, success leaves the stack empty. |
| JsonRoundTrip.RoundTrip | Project_LWM/Project_LWM/json/parser.c:68-213 | From an empty stack and any node pool the printed text of an object is parsed successfully if and only if it takes at most 10 nodes and nests at most 9 deep, and otherwise reported as too big; the nodes then hold that object if and only if the fields it leaves unwritten were clean. |
| JsonRoundTrip.SameShapeRereads | Project_LWM/Project_LWM/json/json_decoder.c:86-97 | After one object, a second one of the same shape is read back, without clearing the pool. |
| JsonRoundTrip.FewerMembersFail | Project_LWM/Project_LWM/json/mem_model.c:29-32 | An object with one member is never read back after one with more: its node keeps the old link. |
| JsonRoundTrip.SecondCallKeepsOldMember | Project_LWM/Project_LWM/json/mem_model.c:29-32 | Two concrete settings texts in a row: both are parsed successfully, and the nodes then hold the second object with the other member of the first one behind it. |
| JsonRoundTrip.OldMembersStay | Project_LWM/Project_LWM/json/mem_model.c:29-32 | An object with one leaf member, read after one (from cleared nodes) whose first value is a leaf, is held with all further members of the old one behind it. |
| JsonRoundTrip.NeedsEmptyStack | Project_LWM/Project_LWM/json/parser.c:65-83 | With frames left over from an earlier call no printed object is parsed successfully. |
| JsonRoundTrip.EarlyReturnLeavesFrames | Project_LWM/Project_LWM/json/parser.c:32-36 | A concrete input after which a frame is left over. |
| JsonRoundTrip.ReadsValue | Project_LWM/Project_LWM/json/parser.c:91-131 | Reading a printed value: the run gets behind it with exactly its nodes built if it fits, else it ends for lack of space. |
| JsonRoundTrip.ReadsMembers | Project_LWM/Project_LWM/json/parser.c:133-205 | The same for the members of an object. |
| JsonRoundTrip.BuildMembersAt | Project_LWM/Project_LWM/json/parser.c:133-205 | The built links and values are those of the object if and only if the fields that building leaves alone were clean. |
| JsonRoundTrip.BuildHolds | Project_LWM/Project_LWM/json/parser.c:133-205 | ... and so is the object that a reader of the links finds. |
| JsonParserLoop.Parser.AllocNode | Project_LWM/Project_LWM/json/mem_model.c:34-46 | The bump allocator. |
| JsonParserLoop.Parser.Init | Project_LWM/Project_LWM/json/mem_model.c:29-32 | Initialization resets the allocator and not the nodes. |
| JsonParserLoop.Parser.CallCase | Project_LWM/Project_LWM/json/parser.c:91-131 | CALL in place is the step function's. |
| JsonParserLoop.Parser.CallLoopCase | Project_LWM/Project_LWM/json/parser.c:133-169 | CALL_LOOP in place. |
| JsonParserLoop.Parser.ResumeLoopCase | Project_LWM/Project_LWM/json/parser.c:171-205 | RESUME_LOOP in place. |
| JsonParserLoop.Parser.ParseTokens | Project_LWM/Project_LWM/json/parser.c:68-213 | The loop over the static stack and pool is the run of the machine. |
| JsonDecoder.GetNumber | Project_LWM/Project_LWM/json/json_decoder.c:71-84 | The first binding of the key decides: found or not, and its number. |
| JsonDecoder.GetObject | Project_LWM/Project_LWM/json/json_decoder.c:37-54 | Found exactly when the first binding is an object; the node holds its members. |
| JsonDecoder.GetString | Project_LWM/Project_LWM/json/json_decoder.c:56-69 | The first binding's text, cut or padded to the size. |
| JsonDecoder.TerminatedIfShorter | Project_LWM/Project_LWM/json/json_decoder.c:56-69 | The copy is terminated if and only if the text is shorter than the size. |
| MqttPacket.EncodeLength | Project_LWM/Project_LWM/Internet/MQTT/MQTTPacket/src/MQTTPacket.c:28-47 | The number of length bytes, with its exact thresholds. |
| MqttPacket.DecodeInvertsEncode | Project_LWM/Project_LWM/Internet/MQTT/MQTTPacket/src/MQTTPacket.c:28-89 | Decoding inverts encoding in at most 4 bytes for all lengths up to 268435455. |
| MqttPacket.PacketLenIsEnough | Project_LWM/Project_LWM/Internet/MQTT/MQTTPacket/src/MQTTPacket.c:92-107 | The buffer check asks for the packet length or one byte more, the latter at exactly four lengths. |
| MqttPacket.WriteLength | Project_LWM/Project_LWM/Internet/MQTT/MQTTPacket/src/MQTTPacket.c:28-47 | The loop writes the encoding and nothing else. |
| MqttPacket.DecodeBuf | Project_LWM/Project_LWM/Internet/MQTT/MQTTPacket/src/MQTTPacket.c:56-125 | The loop returns the decoded value and count. |
| MqttPacket.WriteInt | Project_LWM/Project_LWM/Internet/MQTT/MQTTPacket/src/MQTTPacket.c:172-178 | Two bytes, high first, and nothing else. |
| MqttPacket.WriteChar | Project_LWM/Project_LWM/Internet/MQTT/MQTTPacket/src/MQTTPacket.c:160-164 | One byte and nothing else. |
| MqttPacket.WriteString | Project_LWM/Project_LWM/Internet/MQTT/MQTTPacket/src/MQTTPacket.c:186-214 | Either representation is written with its length. |
| MqttPacket.ReadLenString | Project_LWM/Project_LWM/Internet/MQTT/MQTTPacket/src/MQTTPacket.c:223-245 | The string between cursor and end, or failure. |
| MqttPacket.ReadsWrittenString | Project_LWM/Project_LWM/Internet/MQTT/MQTTPacket/src/MQTTPacket.c:202-245 | Strings below 32768 bytes are read back. |
| MqttPacket.ReadsWrittenWord | Project_LWM/Project_LWM/Internet/MQTT/MQTTPacket/src/MQTTPacket.c:133-178 | 16-bit identifiers are read back although `int` is signed; lengths are if below 32768. |
| MqttPacket.HeaderFields | Project_LWM/Project_LWM/Internet/MQTT/MQTTPacket/src/MQTTPacket.h:55-75 | The fields of the header byte do not disturb each other. |
| MqttPacket.PlainLength | Project_LWM/Project_LWM/Internet/MQTT/MQTTPacket/src/MQTTPacket.c:253-263 | With one representation the computed length is the written one. |
| MqttWire.EncodeIsRemaining | Project_LWM/Project_LWM/Internet/MQTT/MQTTPacket/src/MQTTPacket.c:28-47 | The remaining length in numbers, octet by octet. |
| MqttWire.DecodeMeans | Project_LWM/Project_LWM/Internet/MQTT/MQTTPacket/src/MQTTPacket.c:56-89 | What one to four length octets mean, shortest form or not. |
| MqttWire.StringMeans | Project_LWM/Project_LWM/Internet/MQTT/MQTTPacket/src/MQTTPacket.c:223-245 | What a string field means, by its two length octets. |
| MqttWire.PublishIsThis | Project_LWM/Project_LWM/Internet/MQTT/MQTTPacket/src/MQTTSerializePublish.c:55-91 | Every PUBLISH octet by octet, in numbers (section 3.3 of MQTT Version 3.1.1). |
| MqttWire.PublishExample | Project_LWM/Project_LWM/Internet/MQTT/MQTTPacket/src/MQTTSerializePublish.c:55-91 | One whole PUBLISH. |
| MqttWire.SubscribeIsThis | Project_LWM/Project_LWM/Internet/MQTT/MQTTPacket/src/MQTTSubscribeClient.c:50-86 | Every SUBSCRIBE octet by octet (section 3.8). |
| MqttWire.SubackIsThis | Project_LWM/Project_LWM/Internet/MQTT/MQTTPacket/src/MQTTSubscribeServer.c:85-112 | Every SUBACK octet by octet (section 3.9). |
| MqttWire.SubscribeExample | Project_LWM/Project_LWM/Internet/MQTT/MQTTPacket/src/MQTTSubscribeClient.c:50-86 | One whole SUBSCRIBE and one whole SUBACK. |
| MqttWire.ConnectIsThis | Project_LWM/Project_LWM/Internet/MQTT/MQTTPacket/src/MQTTConnectClient.c:58-124 | Every CONNECT of version 3 or 4 octet by octet: 0x10, the length, the letters of the protocol name, the level, the flags at their places, the keep alive time and the fields (section 3.1). |
| MqttWire.ConnectExample | Project_LWM/Project_LWM/Internet/MQTT/MQTTPacket/src/MQTTConnectClient.c:58-124 | One whole CONNECT. |
| MqttWire.OtherPackets | Project_LWM/Project_LWM/Internet/MQTT/MQTTPacket/src/MQTTDeserializePublish.c:46-49 | A packet of another type is refused, with the code that each deserializer has for it. |
| MqttWire.VersionDecides | Project_LWM/Project_LWM/Internet/MQTT/MQTTPacket/src/MQTTConnectServer.c:30-76 | A CONNECT with any protocol name and version is looked at further exactly if they are known, the name as far as the shorter of the two goes. |
| MqttPublish.SerializePublish | Project_LWM/Project_LWM/Internet/MQTT/MQTTPacket/src/MQTTSerializePublish.c:55-91 | Refused by the check, or written inside `buflen` as exactly the packet, with its length returned. |
| MqttPublish.DeserializePublish | Project_LWM/Project_LWM/Internet/MQTT/MQTTPacket/src/MQTTDeserializePublish.c:36-71 | The cursor code computes the parse function. |
| MqttPublish.PublishRoundTrip | Project_LWM/Project_LWM/Internet/MQTT/MQTTPacket/src/MQTTDeserializePublish.c:36-71 | Every serialized PUBLISH is read back field by field, whatever follows it. |
| MqttPublish.BadTopicCode | Project_LWM/Project_LWM/Internet/MQTT/MQTTPacket/src/MQTTDeserializePublish.c:55-60 | A topic that does not fit is reported with the success code if and only if the remaining length takes one byte. |
| MqttPublish.BadTopicPacket | Project_LWM/Project_LWM/Internet/MQTT/MQTTPacket/src/MQTTDeserializePublish.c:55-60 | Such a packet: a PUBLISH without body. |
| MqttPublish.NegativePayload | Project_LWM/Project_LWM/Internet/MQTT/MQTTPacket/src/MQTTDeserializePublish.c:59-66 | A PUBLISH is accepted with a negative payload length if and only if its body ends before the identifier it should have and there is memory behind it to take the identifier from. |
| MqttPublish.NegativePayloadPacket | Project_LWM/Project_LWM/Internet/MQTT/MQTTPacket/src/MQTTDeserializePublish.c:59-66 | Such a packet of QoS 1: accepted with the next packet's bytes as identifier and a payload length of -2. |
| MqttSubscribe.SubscribeLength | Project_LWM/Project_LWM/Internet/MQTT/MQTTPacket/src/MQTTSubscribeClient.c:28-36 | The loop sums the entries. |
| MqttSubscribe.SerializeSubscribe | Project_LWM/Project_LWM/Internet/MQTT/MQTTPacket/src/MQTTSubscribeClient.c:50-86 | Refused, or written inside `buflen` as exactly the packet. |
| MqttSubscribe.DeserializeSubscribe | Project_LWM/Project_LWM/Internet/MQTT/MQTTPacket/src/MQTTSubscribeServer.c:35-73 | The loop computes the parse function. |
| MqttSubscribe.SubscribeRoundTrip | Project_LWM/Project_LWM/Internet/MQTT/MQTTPacket/src/MQTTSubscribeServer.c:35-73 | SUBSCRIBE with any number of filters is read back. |
| MqttSubscribe.SerializeSuback | Project_LWM/Project_LWM/Internet/MQTT/MQTTPacket/src/MQTTSubscribeServer.c:85-112 | Refused untouched, or written in full; an accepted call writes behind `buflen` if and only if the buffer holds the body but not also the header and length before it, and what lies there then is the packet. |
| MqttSubscribe.SubackCheck | Project_LWM/Project_LWM/Internet/MQTT/MQTTPacket/src/MQTTSubscribeServer.c:93-97 | The check accepts a packet longer than the buffer for exactly these buffer lengths. |
| MqttSubscribe.SubackOverrun | Project_LWM/Project_LWM/Internet/MQTT/MQTTPacket/src/MQTTSubscribeServer.c:93-112 | Without codes and with a buffer of two bytes, four bytes are written. |
| MqttSubscribe.BadFilterCode | Project_LWM/Project_LWM/Internet/MQTT/MQTTPacket/src/MQTTSubscribeServer.c:52-66 | A SUBSCRIBE filter that does not fit is reported with the success code if and only if the remaining length takes one byte. |
| MqttSubscribe.BadFilterPacket | Project_LWM/Project_LWM/Internet/MQTT/MQTTPacket/src/MQTTSubscribeServer.c:52-66 | Such a packet. |
| MqttSubscribe.ShortSubscribe | Project_LWM/Project_LWM/Internet/MQTT/MQTTPacket/src/MQTTSubscribeServer.c:52-70 | A SUBSCRIBE too short for its identifier is accepted without filters if and only if there is memory behind it to take the identifier from. |
| MqttSubscribe.ShortSubscribePacket | Project_LWM/Project_LWM/Internet/MQTT/MQTTPacket/src/MQTTSubscribeServer.c:52-70 | Such a packet. |
| MqttSubscribe.ShortSubackCode | Project_LWM/Project_LWM/Internet/MQTT/MQTTPacket/src/MQTTSubscribeClient.c:110-124 | The same for a SUBACK too short for its identifier. |
| MqttSubscribe.ShortSubackPacket | Project_LWM/Project_LWM/Internet/MQTT/MQTTPacket/src/MQTTSubscribeClient.c:110-124 | Such a packet. |
| MqttSubscribe.DeserializeSuback | Project_LWM/Project_LWM/Internet/MQTT/MQTTPacket/src/MQTTSubscribeClient.c:100-138 | The loop fills the caller's array; the element behind `maxcount` is used too. |
| MqttSubscribe.SubackRoundTrip | Project_LWM/Project_LWM/Internet/MQTT/MQTTPacket/src/MQTTSubscribeClient.c:100-138 | SUBACK is read back if and only if it has at most `maxcount` + 1 codes. |
| MqttConnect.SerializeConnect | Project_LWM/Project_LWM/Internet/MQTT/MQTTPacket/src/MQTTConnectClient.c:58-124 | Refused untouched, or written as exactly the packet; inside `buflen` unless the version is neither 3 nor 4 and the buffer is less than 12 bytes longer than the computed length asks for. |
| MqttConnect.BodyLength | Project_LWM/Project_LWM/Internet/MQTT/MQTTPacket/src/MQTTConnectClient.c:27-48 | The computed length is that of the written body for versions 3 and 4, and 12 bytes short for any other. |
| MqttConnect.DeserializeConnect | Project_LWM/Project_LWM/Internet/MQTT/MQTTPacket/src/MQTTConnectServer.c:50-112 | The cursor code computes the parse function. |
| MqttConnect.ConnectRoundTrip | Project_LWM/Project_LWM/Internet/MQTT/MQTTPacket/src/MQTTConnectServer.c:50-112 | CONNECT is read back if and only if a password comes with a user name and the last of them is not empty; otherwise it is refused. |
| MqttConnect.FlagFields | Project_LWM/Project_LWM/Internet/MQTT/MQTTPacket/src/MQTTConnect.h:31-57 | The bits of the connect flags do not disturb each other. |
| MqttRead.ChunkingIndependence | Project_LWM/Project_LWM/Internet/MQTT/MQTTPacket/src/MQTTPacket.c:302-442 | For every schedule of partial reads and repeated calls and every memory that the packet itself fits, the non-blocking reader ends with the type and buffer of the blocking one, and does end once enough bytes were let through; a packet without a body is never returned. |
| MqttRead.FiveBytesAreEnough | Project_LWM/Project_LWM/Internet/MQTT/MQTTPacket/src/MQTTPacket.c:407-419 | With at least 5 bytes of memory no call ever writes a length behind it, whatever arrives. |
| MqttRead.ReadsOn | Project_LWM/Project_LWM/Internet/MQTT/MQTTPacket/src/MQTTPacket.c:384-442 | One call, from any point within a packet, stays within it or completes it. |
| MqttRead.ReadsWhole | Project_LWM/Project_LWM/Internet/MQTT/MQTTPacket/src/MQTTPacket.c:302-328 | The blocking reader gets the packet from the whole stream. |
| MqttRefused.RefusedAnyhow | Project_LWM/Project_LWM/Internet/MQTT/MQTTPacket/src/MQTTPacket.c:336-442 | A packet that does not fit the buffer, or whose length runs over four bytes, is refused however its bytes arrive, as soon as its length is there, with only the header and the length in the buffer and nothing behind them taken. |
| MqttRefused.ReadRefuses | Project_LWM/Project_LWM/Internet/MQTT/MQTTPacket/src/MQTTPacket.c:302-328 | The blocking reader refuses a packet that does not fit, and one that breaks off. |
| MqttRefused.StartsOver | Project_LWM/Project_LWM/Internet/MQTT/MQTTPacket/src/MQTTPacket.c:384-442 | A call that fails or completes leaves the reader at the beginning of a packet. |
| MqttRefused.ErrorEndsCall | Project_LWM/Project_LWM/Internet/MQTT/MQTTPacket/src/MQTTPacket.c:384-442 | An error of the transport ends the call with that error and changes nothing else. |
| MqttRefused.BehindTheBuffer | Project_LWM/Project_LWM/Internet/MQTT/MQTTPacket/src/MQTTPacket.c:384-442 | Behind the buffer, and behind the five bytes of a header and a length, memory stays as it is. |
| MqttTransport.Transport.DecodeNb | Project_LWM/Project_LWM/Internet/MQTT/MQTTPacket/src/MQTTPacket.c:336-374 | The resumable loop over the length bytes. |
| MqttTransport.Transport.ReadNb | Project_LWM/Project_LWM/Internet/MQTT/MQTTPacket/src/MQTTPacket.c:384-442 | The state machine in memory is the reader function, whenever the memory takes the length that is written back. |
| MqttTopic.IsTopicMatched | Project_LWM/Project_LWM/Internet/MQTT/MQTTClient.c:136-165 | The cursor loops compute the matching function. |
| MqttTopic.MatchedByLevels | Project_LWM/Project_LWM/Internet/MQTT/MQTTClient.c:133-165 | For well-formed filters it is the relation between levels. |
| MqttTopic.WithinStandard | Project_LWM/Project_LWM/Internet/MQTT/MQTTClient.c:133-165 | The relation lies within section 4.7.1 of MQTT Version 3.1.1. |
| MqttTopic.MatcherAndStandard | Project_LWM/Project_LWM/Internet/MQTT/MQTTClient.c:133-165 | The matcher is the standard's matching if and only if no wildcard faces an empty or missing level. |
| MqttTopic.ParentIsNotMatched | Project_LWM/Project_LWM/Internet/MQTT/MQTTClient.c:133-165 | A concrete filter and name on which the two differ. |
| MqttTopic.AnyFilter | Project_LWM/Project_LWM/Internet/MQTT/MQTTClient.c:133-165 | What the matcher does with any filter and any name, well formed or not: level by level, a wildcard standing for the rest of a level or of the name. |
| Security.CryptInverse | Project_LWM/Project_LWM/stack/nwk/src/nwkSecurity.c:131-156 | Decryption inverts encryption and ends with the same vector, for every block function, vector and text. |
| Security.RunCrypts | Project_LWM/Project_LWM/stack/nwk/src/nwkSecurity.c:183-223 | The machine computes this chaining on the payload it is given. |
| Security.EncryptDecrypt | Project_LWM/Project_LWM/stack/nwk/src/nwkSecurity.c:110-223 | Under the same header an encrypted frame is decrypted to its payload and size and passes the integrity check, for every block function and length. |
| Security.Run | Project_LWM/Project_LWM/stack/nwk/src/nwkSecurity.c:183-223 | Block processing ends, with the frame done. |
| Security.Module.Start | Project_LWM/Project_LWM/stack/nwk/src/nwkSecurity.c:110-127 | The initial vector and sizes. |
| Security.Module.EncryptConf | Project_LWM/Project_LWM/stack/nwk/src/nwkSecurity.c:131-156 | The loop over the bytes of a block. |
| Security.Module.ProcessMic | Project_LWM/Project_LWM/stack/nwk/src/nwkSecurity.c:160-178 | The integrity code is appended or compared. |
| Security.Module.Work | Project_LWM/Project_LWM/stack/nwk/src/nwkSecurity.c:183-223 | The frame is worked on until it is done. |
| CipherFeedback.EncryptedFrame | Project_LWM/Project_LWM/stack/nwk/src/nwkSecurity.c:110-178 | Every encrypted frame: its payload in cipher feedback mode with 16-byte segments (section 6.3 of NIST SP 800-38A) from the words of the header, then the code of the last vector. |
| CipherFeedback.DecryptedFrame | Project_LWM/Project_LWM/stack/nwk/src/nwkSecurity.c:110-178 | Every frame that is decrypted: its text is the one that encrypts to its payload, and it passes exactly if its last four bytes are the code. |
| CipherFeedback.EncryptsByFeedback | Project_LWM/Project_LWM/stack/nwk/src/nwkSecurity.c:131-156 | The chain of blocks, byte by byte, and the vector it ends with. |
| CipherFeedback.VectorWords | Project_LWM/Project_LWM/stack/nwk/src/nwkSecurity.c:114-117 | The first vector as the four words of the source. |
| CipherFeedback.MicIsSum | Project_LWM/Project_LWM/stack/nwk/src/nwkSecurity.c:163-164 | The code is the exclusive or of the four words of the vector. |
| CipherFeedback.MixIsXor | Project_LWM/Project_LWM/stack/nwk/src/nwkSecurity.c:141 | Bytes are combined by exclusive or. |

## Left out

- The application, the drivers and the HAL: `main.c`, `lwm.c` beyond the busy flag in front of a submission (`Project_LWM/Project_LWM/lwm/lwm.c:66`), PHY registers, SPI, UART and the W5500 sockets. The PHY appears as events; it confirms only a frame it was given.
- Configuration: routing on; security, multicast and discovery off in the network machine, and no address filter. Discovery and security are components of their own. A node's address does not change during a run.
- History fields of the network machine (`hist`, `callbacks`, `submitted`, `indications`, `appLocks`, and a request's `ticket`, `table`, `seqNo`, `evidence`) are read by no operation; random numbers and what an application handler does on an indication are parameters.
- The timers of the network machine are flags that say whether a timer is on the timer list; the list itself is the timer queue's model. Interrupts come between calls, not during one.
- Frame pointers and request pointers are indices and identities; the shared `rx`/`tx` part of a frame is a variant. The queue of requests is a sequence, not linked cells.
- NetStack.Network.DataReqConfirm: unlinking the request from its `next` chain is taking it out of a sequence.
- Duplicates: a shift of the 8-bit mask by 8 or more empties it, as multiplication by a power of two modulo 256 does; for shifts beyond 15 the language leaves the result open.
- Discovery: the frames that wait for the end of a discovery are not modelled; a request or reply that finds no free frame is one that is not sent.
- DiscoveryReplies.RoutesLoopFree: entries do not expire in these runs; routes are a map of next hops, and a route that is evicted, removed or given up is one that is dropped. Frames that are received set no routes when discovery is on.
- DeltaList.Consume: handlers are given as what they start and stop, per firing. A periodic timer and a timer that a handler starts have an interval of at least 1, without which the loop need not end; a one-shot timer with interval 0 that is on the list is covered.
- TimerQueue.Queue.TaskHandler: the same bound on periodic and handler-started timers.
- DeltaList.ConsumeRefines: the same bound.
- DeltaList.TaskFiresOnTime: the same bound.
- JsonLexer.Lexer.LexNumber: a number beyond `int` keeps its mathematical value; the round trip covers numbers below 32768.
- JsonParserLoop.Parser.ParseTokens: takes its tokens from the token function, to which `ReadToken` is proved equal, and keeps texts by value instead of by their place in the buffer.
- JsonDecoder.GetString: applies to a key bound to a text; reading a number's memory as an address is not modelled. Lookups in an object without members, which compare a null key, are excluded.
- JsonDecoder.GetNumber: an object without members, whose key is a null pointer, is excluded.
- JsonDecoder.GetObject: the same.
- JsonGrammar.ParsesByGrammar: starts from an empty stack; with frames left over from an earlier call only printed objects are covered (`JsonRoundTrip.NeedsEmptyStack`).
- MqttPacket.ReadLenString: a string length of 32768 or more, which the target reads as negative, is left out; so is reading behind the data a caller provides. Both are the outcome `Astray`.
- MqttPublish.DeserializePublish: topic lengths of 32768 or more are left out with `ReadLenString`, and so is an identifier behind the memory that is given.
- MqttConnect.DeserializeConnect: string lengths of 32768 or more are left out with `ReadLenString`.
- MqttSubscribe.SerializeSuback: the array stands for the memory the packet is written to, which reaches behind `buflen` when the packet does.
- MqttSubscribe.DeserializeSubscribe: collects the filters in a sequence; the source fills arrays of the caller and does not look at `maxcount`.
- MqttConnect.ConnectRoundTrip: says nothing about versions other than 3 and 4, whose announced length is 12 bytes too small.
- MqttConnect.SerializeConnect: the array stands for the memory the packet is written to, which reaches behind `buflen` when the packet does.
- MqttRead.ChunkingIndependence: packet types start at 1, since 0 is also the answer to call again; a transport error ends a read and is not followed further.
- MqttTransport.Transport.ReadNb: a call that would write the length behind the end of the memory, which takes fewer than 5 bytes, is left out; the outcome `Overrun` says which.
- UNSUBSCRIBE, CONNACK, the other acknowledgments and the text formatter of the MQTT library repeat what is modelled; the client loops are driven by sockets and wall-clock time.
- MqttTopic: the rule about names that begin with `$` is not part of either side.
- Security: the choice of the next pending frame from the pool and frames shorter than the integrity code are not modelled; one frame is worked on at a time.
- `ping.c`, `halUart.c` and the loopback service.
