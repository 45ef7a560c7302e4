# Alebus: verified model of the ingest, journey and route core

A Dafny model of the parts of the Alebus bus-tracking backend where order, concurrency and state
carry the correctness argument, with proofs of what they promise.

- **Ordered acknowledgements.** `AckOrdering` describes one connection's manager as a state machine
  over histories of calls and answers, with map-iteration order left nondeterministic. `AckSafety`
  proves the ordering rule of section 4.6 of MQTT Version 5.0 on every history, `AckLedger` which
  numbers a flush sends, in terms of the history alone, `AckFifo` that a strictly increasing clock makes
  the manager a FIFO of slots, and `AckManager` that the object with its in-place fields and loops takes
  exactly those steps. `ClientProtocol` and `MqttClient` do the same for the client that replaces managers
  across connections; `ClientAcks` logs every acknowledgement it gives, flushed or at once, and
  `ClientOrder` proves the ordering rule for the client as a whole.
- **Ingest queue.** `IngestQueue` is a list machine; `BoundedQueue` is the circular array with an
  index of shared, mutable work items, proved to refine it.
- **Journeys.** `JourneyRules` gives each method as a function, failures that leave fields changed
  included; `JourneyEffects` says what each does, in numbers; `JourneyAggregate` is the object;
  `JourneyRuns` and `JourneyPolls` prove invariants and bounds over whole runs. `JourneyRepository` is the
  row mapping, the version-checked upsert and the command handler; `JourneyWorld` lets any number of
  clients interleave load, command and save.
- **Routes.** `RouteRules` holds the edits and the laws of the event log and the distances,
  `RouteEffects` what each edit does, `RouteAggregate` the object.
- **Two algorithms.** `SseLimiter` (the compare-and-swap connection limit) and `LatencyTracker` (ring
  buffer, in-place insertion sort, percentiles).

Each mutex-protected method is one atomic step, the clock is an argument `now` (nanoseconds), and a
history or run is any sequence of such steps. The `Valid()` of the manager, the client, the queue, the
journey and the route says that the fields are what the recorded calls lead to, and a lemma on the
object (`PastIs...`) states there what was proved about histories: it holds after any calls.
`dafny verify dfyconfig.toml` checks the project.

Where the code departs from its comments the model follows the code:

- Two entries registered at the same clock reading can make capacity eviction remove one above the
  head; Flush then stalls at the gap until the next sweep. `EvictsHeadIffUniqueOldest` gives the exact
  condition, `TieLeavesGap` an input, `StallEndsIff` and `StallLasts` the stall, `SweepClosesGap` the recovery.
- Sequence numbers restart in each manager and reports always go to the current one, so a late
  completion can acknowledge another packet: `LateCompletionAcksAnother`, with the exact condition in
  `ReportHitsAnotherIff`.
- After a server disconnect the next connection-up keeps the stopped manager (`ConnectionUpRunsIff`), and
  each message of that connection is acknowledged unprocessed (`ReconnectAfterServerDisconnectIsDeaf`,
  `DeafEndsIff`). `AckedOnOwnReportIff` says exactly which acknowledgements rest on the packet's own
  report, `DeafClientAcksUnprocessed` gives an input.
- A Start on an un-stopped client whose manager is running drops that manager without stopping it
  (`SecondStartLeaks`); at most one manager runs exactly when no such Start occurs (`AtMostOneRunsIff`).
  The dropped manager can acknowledge out of order (`LeakBreaksOrder`).
- Stop does not keep a later connection-up from creating a running manager (`StoppedClientRevivesIff`,
  `StoppedClientCanRevive`). That manager never has anything to acknowledge, but a dropped one may:
  `StoppedClientAcksIff` says exactly when a stopped client acknowledges only what arrives then, which it
  does at once; `LeakedManagerStillSends` gives an input.
- A full queue under `coalesce_latest` drops the new message and never evicts the oldest
  (`FullQueueDropsNewIff`, reached in `SecondMessageIsLostIff`).
- Two journey methods change fields before a later check fails: `FailedCallChangesIff` says exactly
  when, `SearchingJourneyArrives` and `SecondInitializationOverwrites` give inputs.
- Loading a route calculates its distances again, which an edit may have unsettled
  (`RehydrateKeepsIff`, `RehydrationMovesStops`).
- The table of valid status transitions and the function the methods use differ in three pairs
  (`TableAgreesIff`).
- The retry counter of the manager is never incremented (part of `LegalInv`), the switch reason is not
  persisted (`SaveLoadRoundTrip`), the boarding window is three minutes while the texts say ten
  (`ExactlyOneBoards`), and route edits do not recalculate distances (`AddStopKeepsOrderIff`).

## Model

| member | source | states |
|---|---|---|
| AckOrdering.RunEnd | infrastructure/mqtt/ack_manager.go:195-219 | the run of sendable entries: everything before its end is pending and decided other than Retry, the entry at its end is not |
| AckOrdering.SkipGaps | infrastructure/mqtt/ack_manager.go:376-386 | the first number from n on that is still pending, or the next number to assign; nothing skipped was pending |
| AckSafety.StepKeepsInv | infrastructure/mqtt/ack_manager.go:117-413 | every locked method keeps: each issued number is in exactly one of pending, released, evicted; entries agree with the last decision accepted; the counters are the sizes |
| AckSafety.LegalInv | infrastructure/mqtt/ack_manager.go:117-413 | that invariant after every interleaving, with the wire equal to the packets of the released numbers |
| AckSafety.AcksAreOrdered | infrastructure/mqtt/ack_manager.go:185-222 | on every interleaving acks go out in strictly increasing number, once each, only when the latest decision is not Retry, only before Stop, and only after every smaller issued number was acked or evicted |
| AckSafety.ReleaseIsJustified | infrastructure/mqtt/ack_manager.go:195-219 | each single release of one flush meets the ordering rule, the earlier releases of the same flush counted |
| AckSafety.IssuedIsConserved | infrastructure/mqtt/ack_manager.go:125-131 | while not stopped, numbers issued = acked + evicted + pending, and pending never exceeds its maximum |
| AckSafety.StoppedIsSilent | infrastructure/mqtt/ack_manager.go:254-271 | after Stop no later history changes the wire or restarts the manager |
| AckLedger.FlushSendsIff | infrastructure/mqtt/ack_manager.go:185-222 | for every history of a manager not stopped, a flush sends a number if and only if it and every number from the next to acknowledge up to it were issued, not evicted, and have an accepted decision other than Retry, whenever that was reported |
| AckLedger.FlushSendsInOrder | infrastructure/mqtt/ack_manager.go:195-219 | what a flush sends goes out in number order, to the packets the numbers were issued to |
| AckLedger.LatestIs | infrastructure/mqtt/ack_manager.go:144-182 | the decision the ordering rule speaks of is that of the last accepted Complete, or ACK after a resolved retry, in the raw history |
| AckLedger.LedgerIs | infrastructure/mqtt/ack_manager.go:117-413 | the numbers issued, evicted and released are those of the history's entries |
| AckLedger.IssuedTo | infrastructure/mqtt/ack_manager.go:117-139 | a number belongs to the packet it was registered with |
| AckFifo.RefinesFifo | infrastructure/mqtt/ack_manager.go:185-222 | with strictly increasing registration times the pending keys are exactly [nextAckSeq, nextRecvSeq) and the entries equal the list of a plain FIFO replaying the same history |
| AckFifo.RegisterSlot | infrastructure/mqtt/ack_manager.go:117-139 | registration appends a slot, dropping the head slot of a full list |
| AckFifo.EvictHead | infrastructure/mqtt/ack_manager.go:329-351 | under an increasing clock capacity eviction removes the head and the ack counter follows |
| AckFifo.FlushSlots | infrastructure/mqtt/ack_manager.go:185-222 | Flush removes exactly the longest prefix of slots decided other than Retry |
| AckFifo.SweepSlots | infrastructure/mqtt/ack_manager.go:354-374 | the timeout sweep removes exactly the prefix of slots older than the cutoff |
| AckFifo.FlushEmptiesDecided | infrastructure/mqtt/ack_manager.go:185-222 | if every pending entry is completed with a decision other than Retry, one Flush releases all of them and empties the manager |
| AckFifo.SweepClosesGap | infrastructure/mqtt/ack_manager.go:362-373 | for any clock, after a sweep nextAckSeq is pending or equals nextRecvSeq |
| AckFifo.StallEndsIff | infrastructure/mqtt/ack_manager.go:185-222 | while the number to acknowledge next was issued but is not pending, a running manager sends nothing in any step, and the stall at that number ends if and only if the step is a sweep or Stop |
| AckFifo.StallLasts | infrastructure/mqtt/ack_manager.go:329-386 | over any calls until the next sweep or Stop the gap stays and the wire is unchanged |
| AckFifo.EvictsHeadIffUniqueOldest | infrastructure/mqtt/ack_manager.go:334-340 | capacity eviction is certain to take the head if and only if the head was registered strictly before every other entry |
| AckFifo.TieLeavesGap | infrastructure/mqtt/ack_manager.go:334-349 | a concrete history with a tie after which Flush is stuck although the next pending entry is decided ACK |
| AckManagement.AckManager.constructor | infrastructure/mqtt/ack_manager.go:88-107 | 30 seconds and 10000 entries replace non-positive settings; numbering starts at 1 with an empty map |
| AckManagement.AckManager.Register | infrastructure/mqtt/ack_manager.go:117-139 | refused exactly when stopped; otherwise issues the next number after evicting an oldest entry if full |
| AckManagement.AckManager.Complete | infrastructure/mqtt/ack_manager.go:151-177 | accepted exactly when running and the number is pending; then the entry carries this decision |
| AckManagement.AckManager.UpdateRetryToAck | infrastructure/mqtt/ack_manager.go:392-413 | accepted exactly when the entry is pending, completed and on Retry |
| AckManagement.AckManager.Flush | infrastructure/mqtt/ack_manager.go:185-222 | releases from the next number on every entry completed with a decision other than Retry, up to the first that is not; nothing when stopped |
| AckManagement.AckManager.SendRun | infrastructure/mqtt/ack_manager.go:195-219 | the loop stops at the end of the sendable run and has sent and deleted exactly that run |
| AckManagement.AckManager.Stop | infrastructure/mqtt/ack_manager.go:258-271 | stopped with pending cleared; repeating it changes nothing |
| AckManagement.AckManager.EvictTimedOut | infrastructure/mqtt/ack_manager.go:354-374 | deletes exactly the entries older than the cutoff and skips the gaps |
| AckManagement.AckManager.DeleteStale | infrastructure/mqtt/ack_manager.go:365-370 | deleting while iterating in any order removes exactly the stale entries and counts each once |
| AckManagement.AckManager.EvictOldestIfNeeded | infrastructure/mqtt/ack_manager.go:329-351 | evicts one entry of minimal registration time if and only if the map is full |
| AckManagement.AckManager.AdvanceNextAckSeq | infrastructure/mqtt/ack_manager.go:378-386 | moves to the first pending number or the next number to assign |
| AckManagement.FindOldest | infrastructure/mqtt/ack_manager.go:334-340 | whatever the iteration order, the result is pending and nothing was registered before it |
| AckManagement.AckManager.PastIsOrdered | infrastructure/mqtt/ack_manager.go:40-66 | every valid manager object's past meets the ordering rule and the invariant |
| ClientProtocol.StepKeepsOnlyLastIff | infrastructure/mqtt/client.go:133-371 | a step keeps "only the current manager runs" if and only if it held before and the step is not a Start on an un-stopped client whose manager is running: a leaked manager is never stopped again |
| ClientProtocol.OnlyLastRunsIff | infrastructure/mqtt/client.go:133-371 | after every run whatever, only the current manager can be running if and only if the run has no such Start |
| ClientProtocol.AtMostOneRunsIff | infrastructure/mqtt/client.go:133-371 | at most one manager is un-stopped at every point of a run if and only if the run has no such Start |
| ClientProtocol.AtMostOneManagerRuns | infrastructure/mqtt/client.go:351-481 | in particular with one Start, on every run of callbacks, messages and Stop |
| ClientProtocol.SecondStartLeaks | infrastructure/mqtt/client.go:133-152 | an input: two Starts leave two running managers |
| ClientProtocol.EveryManagerIsOrdered | infrastructure/mqtt/client.go:351-481 | every manager of every run orders its acks and sends none once stopped |
| ClientProtocol.EventSetsState | infrastructure/mqtt/client.go:133-225 | what each callback and method does to the connection state and the stopped flag |
| ClientProtocol.EventMovesManagers | infrastructure/mqtt/client.go:133-481 | which managers there are after each event, and what each has gone through |
| ClientProtocol.StepStaysMute | infrastructure/mqtt/client.go:193-225 | a stopped client registers nothing, so no step makes stuck managers flush anything or unsticks them |
| ClientProtocol.StoppedCurrentIsIdle | infrastructure/mqtt/client.go:351-371 | on every run the current manager of a stopped client holds no message, even one that a later connection-up created running |
| ClientAcks.StoppedClientAcksIff | infrastructure/mqtt/client.go:193-225 | after any run that stopped the client, in every continuation the only acknowledgements are the immediate ones of the packets that arrive, in order, if and only if every manager is stuck: each entry it could send waits behind one it cannot and that no sweep removes first |
| ClientAcks.StoppedClientAcksArrivals | infrastructure/mqtt/client.go:414-440 | in particular, unless a Start dropped a running manager, what was pending at Stop is never acknowledged, and each packet arriving later is, at once |
| ClientProtocol.LeakedManagerStillSends | infrastructure/mqtt/client.go:143-152 | an input: a manager dropped by a second Start acknowledges a packet after Stop |
| ClientProtocol.StoppedClientRevivesIff | infrastructure/mqtt/client.go:351-371 | from a stopped client with all managers stopped, a step leaves one running if and only if it is a connection-up in state Connected, as the stopped flag is not looked at |
| ClientProtocol.StoppedClientCanRevive | infrastructure/mqtt/client.go:351-371 | an input: Stop and two connection-ups leave a stopped client with a running manager |
| ClientProtocol.ConnectionUpRunsIff | infrastructure/mqtt/client.go:351-371 | after connection-up the current manager runs if and only if the state was Connected or it had not been stopped |
| ClientAcks.AtOnceIffDeaf | infrastructure/mqtt/client.go:414-440 | a packet is acknowledged on arrival, unprocessed, if and only if the client or its current manager is stopped |
| ClientAcks.ReconnectAfterServerDisconnectIsDeaf | infrastructure/mqtt/client.go:467-481 | after a server disconnect and a connection-up every message is refused by the stopped manager and acknowledged at once |
| ClientAcks.DeafEndsIff | infrastructure/mqtt/client.go:351-371 | that goes on until a Start whose URLs parse or a connection-up in state Connected, and for good once the client is stopped |
| ClientProtocol.StepStaysTruthful | infrastructure/mqtt/client.go:231-244 | each step keeps: numbers map one to one to packets, and a manager's decision for a number is what its packet's worker last reported |
| ClientProtocol.FlushMeansOwnDecision | infrastructure/mqtt/client.go:231-236 | if workers only report numbers issued by the current manager, each number a manager flushes belongs to a packet whose own last report was not Retry |
| ClientAcks.FlushAcks | infrastructure/mqtt/ack_manager.go:195-219 | on every run a flush acknowledges, in order, the packet each released number was issued to |
| ClientAcks.LogIsWires | infrastructure/mqtt/client.go:414-457 | the log of all acknowledgements holds, beside the immediate ones, exactly what each manager put on its wire |
| ClientAcks.AckedOnOwnReportIff | infrastructure/mqtt/client.go:414-457 | on every run where workers only report their own packets' numbers to the manager that issued them, an acknowledged packet, flushed or immediate, has a last report of its own other than Retry at that moment if and only if it did not arrive while the client or its current manager was stopped |
| ClientAcks.DeafClientAcksUnprocessed | infrastructure/mqtt/client.go:434-440 | an input: after a server disconnect and a connection-up a packet is acknowledged that nobody reported |
| ClientOrder.AlwaysOrdered | infrastructure/mqtt/client.go:351-457 | while no Start drops a running manager, everything acknowledged so far arrived before everything the current manager has pending, and its numbers follow arrival |
| ClientOrder.AcksFollowArrivals | infrastructure/mqtt/client.go:351-457 | on every such run with distinct packets, over all managers and immediate acknowledgements, packets are acknowledged at most once and in the order of arrival |
| ClientOrder.LeakBreaksOrder | infrastructure/mqtt/client.go:143-152 | an input: a manager dropped by a second Start acknowledges packet 7 after the new one acknowledged packet 8 |
| ClientProtocol.RunStaysHome | infrastructure/mqtt/client.go:414-457 | on every run with distinct packets, however workers report, each manager's numbers and the packets registered with it correspond one to one |
| ClientProtocol.ReportHitsAnotherIff | infrastructure/mqtt/client.go:231-244 | on every such run a worker reporting its packet's number decides another packet's fate if and only if a newer manager is current and has that number waiting (undecided or not; on Retry, for a resolved retry); an accepted report hits its own packet if and only if the issuing manager is still current, and leaves its decision on the packet hit |
| ClientProtocol.LateCompletionAcksAnother | infrastructure/mqtt/client.go:231-236 | a concrete run in which a late completion releases the PUBACK of a packet nobody reported |
| MqttClients.MQTTClient.constructor | infrastructure/mqtt/client.go:109-126 | disconnected, no manager |
| MqttClients.MQTTClient.StartBegin | infrastructure/mqtt/client.go:133-155 | refused exactly when stopped; creates the connection's manager once the URLs parse |
| MqttClients.MQTTClient.StartDone | infrastructure/mqtt/client.go:158-187 | Connected on success; Disconnected with the error kept and returned on failure |
| MqttClients.MQTTClient.ResetManager | infrastructure/mqtt/client.go:358-371 | the old manager is stopped and a fresh running one becomes current |
| MqttClients.MQTTClient.OnConnectionUp | infrastructure/mqtt/client.go:351-403 | a new manager exactly when the state was already Connected |
| MqttClients.MQTTClient.OnConnectError | infrastructure/mqtt/client.go:406-411 | state Connecting with the error kept; managers untouched |
| MqttClients.MQTTClient.OnServerDisconnect | infrastructure/mqtt/client.go:467-481 | the current manager is stopped and kept |
| MqttClients.MQTTClient.Stop | infrastructure/mqtt/client.go:193-225 | the first Stop sets the flag and stops the current manager; a repeated one changes no manager, even one that a connection-up has since revived |
| MqttClients.MQTTClient.OnPublishReceived | infrastructure/mqtt/client.go:414-457 | acknowledges at once, and logs it, exactly when client or manager is stopped; otherwise the packet is registered under the number handed to the handler |
| MqttClients.MQTTClient.AckMessage | infrastructure/mqtt/client.go:231-236 | reaches the current manager, whoever reports |
| MqttClients.MQTTClient.UpdateRetryToAck | infrastructure/mqtt/client.go:239-244 | accepted exactly when the current manager runs and holds the number completed on Retry |
| MqttClients.MQTTClient.FlushTick | infrastructure/mqtt/ack_manager.go:231-252 | any manager's flush loop may act at any time; a stopped one sends nothing |
| MqttClients.MQTTClient.EvictTick | infrastructure/mqtt/ack_manager.go:248-249 | any manager's eviction tick keeps the client valid |
| MqttClients.MQTTClient.PastIsSafe | infrastructure/mqtt/client.go:85-104 | every manager object's acks are ordered; all objects but the current are stopped if and only if no Start dropped a running one; and then a stopped client holds no pending message |
| MqttClients.MQTTClient.PastIsInOrder | infrastructure/mqtt/client.go:85-104 | the log of acknowledgements is the manager objects' wires and the immediate ones, and if no Start dropped a running manager it follows the order of arrival |
| IngestQueue.FindBus | infrastructure/mqtt/queue.go:101-102 | the first queued item of a bus, if any |
| IngestQueue.AlwaysConserved | infrastructure/mqtt/queue.go:93-224 | items taken followed by items queued are the items accepted, in order (whole items under drop_new); offers while open = taken + queued + dropped + coalesced; length at most capacity |
| IngestQueue.AlwaysCoalesced | infrastructure/mqtt/queue.go:101-109 | under coalesce_latest a named bus has at most one queued item, merged from the messages accepted since its last dequeue, and none if there were none |
| IngestQueue.TakenIsMerged | infrastructure/mqtt/queue.go:102-115 | an item dequeued for a named bus has, field by field, the number and topic of the first message accepted since the bus's previous dequeue and the payload and time of the last, as read off the raw history |
| IngestQueue.WindowIs | infrastructure/mqtt/queue.go:102-142 | the window of a bus is the list of its messages accepted since its last item was taken |
| IngestQueue.OfferDoes | infrastructure/mqtt/queue.go:93-129 | which of the four answers an offered message gets, exactly, and what becomes of every queued item and counter |
| IngestQueue.TakeDoes | infrastructure/mqtt/queue.go:150-234 | a take removes the oldest item, closed or not; Close and an empty answer keep every item |
| IngestQueue.TakenIncrease | infrastructure/mqtt/queue.go:131-142 | numbers offered in increasing order are dequeued in strictly increasing order |
| IngestQueue.FullQueueDropsNewIff | infrastructure/mqtt/queue.go:118-128 | a full open queue drops the new item if and only if it cannot coalesce it, and never evicts a queued one |
| IngestQueue.SecondMessageIsLostIff | infrastructure/mqtt/queue.go:101-128 | with room for one message a history that keeps and then hands out the first and drops the second is possible if and only if the second names no bus or another one |
| BoundedQueues.WorkItem.constructor | infrastructure/mqtt/types.go:183-195 | a fresh item with no retries |
| BoundedQueues.BoundedQueue.constructor | infrastructure/mqtt/queue.go:48-65 | capacity at least 1; an unknown policy means coalesce_latest |
| BoundedQueues.BoundedQueue.Enqueue | infrastructure/mqtt/queue.go:93-129 | refines the list machine for both policies; after coalescing the indexed object carries the message's payload and time; changes no other item; never touches an item already handed to a worker when offered items are distinct |
| BoundedQueues.BoundedQueue.CoalesceInto | infrastructure/mqtt/queue.go:102-109 | the queued object of the bus takes payload and time in place and keeps its number |
| BoundedQueues.BoundedQueue.Overwrite | infrastructure/mqtt/queue.go:103-106 | writing through the index changes exactly one queued value |
| BoundedQueues.BoundedQueue.InsertItem | infrastructure/mqtt/queue.go:133-142 | appends at the tail, wrapping, and keeps the index exact |
| BoundedQueues.BoundedQueue.RemoveHead | infrastructure/mqtt/queue.go:190-201 | the oldest object leaves the ring and the index; its slot is cleared |
| BoundedQueues.BoundedQueue.Dequeue | infrastructure/mqtt/queue.go:150-202 | after the wait: the oldest item, also after Close until drained; nothing if cancelled or closed and empty |
| BoundedQueues.BoundedQueue.TryDequeue | infrastructure/mqtt/queue.go:206-224 | the oldest item, or nothing exactly when empty |
| BoundedQueues.BoundedQueue.Close | infrastructure/mqtt/queue.go:228-234 | later offers are refused; queued items stay |
| BoundedQueues.BoundedQueue.IndexIsExact | infrastructure/mqtt/queue.go:33-33 | under coalesce_latest a bus is in the index if and only if exactly one queued item has it, and the index holds that very object |
| BoundedQueues.BoundedQueue.PastIsConserved | infrastructure/mqtt/queue.go:265-285 | every valid queue object's past obeys FIFO order and conservation |
| JourneyRules.TableAgreesIff | domain/enums/journey_enums.go:36-87 | table and function agree on a pair of statuses if and only if it is not one of the three named |
| JourneyRuns.ApplyKeepsSound | domain/aggregates/journey_methods.go:14-469 | every call, failed or not, keeps: BoardingPrompt has level Arrived and a window start, the active bus is recommended, tracked and boarded journeys have recommendations, declines are in 0..5, boardedAt is set exactly from Boarded on |
| JourneyRuns.AlwaysSound | domain/aggregates/journey.go:48-102 | that invariant after any calls on a journey from NewJourney |
| JourneyRuns.StatusMovesLegally | domain/enums/journey_enums.go:62-87 | a call keeps the status or moves it along the transition function; terminal statuses are frozen; a failing call never changes the status or records an event |
| JourneyRuns.FailedCallChangesIff | domain/aggregates/journey_methods.go:14-290 | a call fails having changed the journey if and only if it is an initialization with valid arguments from a status other than Searching and BoardingPrompt and with other values than before, or the step from Nearby to Arrived for the active, unexpired journey in a status other than Tracking; it then fails with the status error |
| JourneyRuns.SearchingJourneyArrives | domain/aggregates/journey_methods.go:259-290 | an input: a new journey climbs to Arrived for the empty bus id and fails, with level and window changed |
| JourneyRuns.SecondInitializationOverwrites | domain/aggregates/journey_methods.go:14-44 | an input: a second initialization fails, with recommendations and bus changed |
| JourneyEffects.NewJourneyDoes | domain/aggregates/journey.go:48-102 | every refusal with its error, and otherwise every field: Searching, expiring after 30 minutes, with a three-minute boarding window |
| JourneyEffects.InitializeTrackingDoes | domain/aggregates/journey_methods.go:14-58 | trips of 5 minutes to 3 hours start tracking from Searching and BoardingPrompt; each refusal with its error, what is written before the last one, and that nothing else moves |
| JourneyEffects.UpdateRecommendationsDoes | domain/aggregates/journey_methods.go:60-151 | when recommendations are replaced, exactly by the new ones; level 0 and no window if and only if the active bus changed, both kept otherwise; nothing else moves |
| JourneyEffects.UpdateRecommendationsRecords | domain/aggregates/journey_methods.go:88-112 | one event, after that for the change of bus if there is one, saying whether a bus took another rank or an arrival moved by over three minutes |
| JourneyEffects.SwitchBusDoes | domain/aggregates/journey_methods.go:153-194 | only a recommended bus, outside BoardingPrompt; a real change clears the declines and moves nothing else |
| JourneyEffects.UpdateProximityDoes | domain/aggregates/journey_methods.go:259-307 | one step up for the active bus, at most to 3; reaching 3 opens the window and prompts from Tracking, and fails with level and window changed from any other status |
| JourneyEffects.NextProximityLevelIs | domain/aggregates/journey_methods.go:223-257 | proposes the next level while Tracking if and only if the bus is within 500, 100 or 50 metres for level 1, 2 or 3 |
| JourneyEffects.TargetLevelIs | domain/aggregates/journey_methods.go:231-247 | the level a distance calls for, from 0 to 3, by the same three thresholds |
| JourneyEffects.CompleteJourneyDoes | domain/aggregates/journey_methods.go:309-331 | Boarded to Completed with its event; an error otherwise |
| JourneyEffects.ConfirmBoardedDoes | domain/aggregates/journey_methods.go:333-361 | boards now from the prompt within three minutes of the window's start; each refusal with its error |
| JourneyEffects.DeclineBoardingDoes | domain/aggregates/journey_methods.go:363-394 | one decline more, at most five, back to Tracking at level 0; each refusal with its error |
| JourneyEffects.CancelJourneyDoes | domain/aggregates/journey_methods.go:396-417 | to Cancelled from Searching, Tracking, BoardingPrompt and Boarded; two different errors otherwise |
| JourneyEffects.ExpireJourneyDoes | domain/aggregates/journey_methods.go:419-436 | to Expired from the same four statuses |
| JourneyEffects.AutoCompleteDoes | domain/aggregates/journey_methods.go:442-469 | boards now from the prompt once three minutes have passed; otherwise no change and no error |
| JourneyRuns.ExactlyOneBoards | domain/aggregates/journey_methods.go:333-361 | in a reachable BoardingPrompt at any time exactly one of confirming and auto-completing boards, decided by the three-minute window |
| JourneyRuns.BoardedAtIsFinal | domain/aggregates/journey_methods.go:442-469 | once set the boarding time survives every call and the user is never prompted again |
| JourneyRuns.BoardedAtNeverRewritten | domain/aggregates/journey_methods.go:333-361 | over any run the boarding time is written at most once |
| JourneyRuns.BoardsAtMostOnce | domain/aggregates/journey_methods.go:333-361 | any run boards at most once; boardedAt is unset before and set in Boarded and Completed |
| JourneyRuns.CountKeepsBudget | domain/aggregates/journey_methods.go:363-394 | each call keeps declines within 5 per bus and prompts within declines plus initializations |
| JourneyRuns.PromptsAreBounded | domain/aggregates/journey_methods.go:153-194 | any run prompts at most 5 * (S + 1) times plus the successful initializations, hence 5 * (S + 1) + 1 when there is one |
| JourneyRuns.EventsAgree | domain/aggregates/journey_methods.go:292-305 | counting the recorded start, arrival and boarding events gives the initializations, prompts and boardings of the run |
| JourneyPolls.BudgetIsAttained | domain/aggregates/journey_methods.go:363-394 | for every S some run with one initialization and S bus changes is prompted exactly 5 * (S + 1) + 1 times |
| JourneyPolls.PollIsAccepted | domain/aggregates/journey_methods.go:215-257 | every proposed level is accepted by UpdateProximity on an unexpired journey and prompts exactly on reaching Arrived |
| JourneyPolls.PollsClimbWithinReach | domain/aggregates/journey_methods.go:215-307 | over any polls the level never falls, rises at most one a poll, and never passes the higher of its start and the tightest threshold seen |
| JourneyPolls.NearbyBusArrives | domain/aggregates/journey_methods.go:231-257 | k polls within 50 m from level l reach min(3, l + k), prompting when a poll reaches 3 |
| JourneyAggregates.JourneyAggregate.FromValue | domain/aggregates/journey_rehydrate.go:57-79 | the object holds exactly the given fields and no call is recorded |
| JourneyAggregates.JourneyAggregate.PastIsSafe | domain/aggregates/journey_methods.go:14-469 | whatever was called on an object built by NewJourney, it is sound, was prompted within the decline budget, boarded at most once, kept its boarding time and recorded events that count these; a rehydrated sound object stays sound |
| JourneyAggregates.JourneyAggregate.InitializeTracking | domain/aggregates/journey_methods.go:14-58 | takes the step its recorded call names, with recommendations, bus, duration and expiry already changed when the status check fails |
| JourneyAggregates.JourneyAggregate.UpdateRecommendations | domain/aggregates/journey_methods.go:60-114 | takes its recorded step: proximity and window reset exactly when the active bus changed |
| JourneyAggregates.JourneyAggregate.SignificantChange | domain/aggregates/journey_methods.go:130-151 | the loop finds a change if and only if the lengths differ or some arrival moved over three minutes or some bus differs |
| JourneyAggregates.JourneyAggregate.SwitchBus | domain/aggregates/journey_methods.go:153-194 | the loop finds a recommended bus; takes its recorded step, where a real change clears the declines |
| JourneyAggregates.JourneyAggregate.UpdateProximity | domain/aggregates/journey_methods.go:259-307 | takes its recorded step, with level and window already changed when the status check fails |
| JourneyAggregates.JourneyAggregate.CompleteJourney | domain/aggregates/journey_methods.go:309-331 | takes its recorded step, so Valid is kept and PastIsSafe applies |
| JourneyAggregates.JourneyAggregate.ConfirmBoarded | domain/aggregates/journey_methods.go:333-361 | takes its recorded step; boards within the window only (ExactlyOneBoards) |
| JourneyAggregates.JourneyAggregate.DeclineBoarding | domain/aggregates/journey_methods.go:363-394 | takes its recorded step; the count it raises stays within the budget (CountKeepsBudget) |
| JourneyAggregates.JourneyAggregate.CancelJourney | domain/aggregates/journey_methods.go:396-417 | takes its recorded step, so Valid is kept and PastIsSafe applies |
| JourneyAggregates.JourneyAggregate.ExpireJourney | domain/aggregates/journey_methods.go:419-436 | takes its recorded step, so Valid is kept and PastIsSafe applies |
| JourneyAggregates.JourneyAggregate.AutoCompleteIfBoardingWindowExpired | domain/aggregates/journey_methods.go:442-469 | takes its recorded step; boards after the window only (ExactlyOneBoards) |
| JourneyAggregates.JourneyAggregate.Perform | application/journey/mgmt/handler.go:49-49 | any command on the object is recorded and takes its step, and a sound journey stays sound |
| JourneyPersistence.RecommendationsRoundTrip | infrastructure/repositories/journey_repository.go:315-394 | unmarshalling the marshalled recommendations gives them back |
| JourneyPersistence.MarshalRecommendations | infrastructure/repositories/journey_repository.go:316-353 | the loop's rows unmarshal to the input |
| JourneyPersistence.UnmarshalRecommendations | infrastructure/repositories/journey_repository.go:356-394 | the loop maps every row field by field |
| JourneyPersistence.SaveLoadRoundTrip | infrastructure/repositories/journey_repository.go:89-110 | saving and loading a sound journey gives it back one version later, less the switch reason and the recorder |
| JourneyPersistence.FindErrorIs | infrastructure/repositories/journey_repository.go:254-279 | an unknown id is not found; a stored row is refused exactly for an invalid origin, stop pair or creation time |
| JourneyPersistence.StatusCodesAre | domain/enums/journey_enums.go:5-13 | the stored codes of the seven statuses are 0 to 6 in order |
| JourneyPersistence.UpsertDoes | infrastructure/repositories/journey_repository.go:53-121 | a save goes through if and only if the id is new or the stored version is the journey's; then one row changes, one version on, and loads to the journey but for switch reason, log and creation time |
| JourneyPersistence.HandledDoes | application/journey/mgmt/handler.go:43-166 | an uninterrupted command answers the load's, the command's or the version error, in that order, and changes the table only if there is none |
| JourneyPersistence.PostgresJourneyRepository.Save | infrastructure/repositories/journey_repository.go:38-121 | inserts a new id, updates exactly on an equal version, otherwise reports a stale version and changes nothing |
| JourneyPersistence.PostgresJourneyRepository.FindByID | infrastructure/repositories/journey_repository.go:125-139 | a fresh object of the stored journey, or not found, or the rehydration error |
| JourneyPersistence.JourneyCommandHandler.CreateJourney | application/journey/mgmt/handler.go:25-40 | saves exactly when construction succeeds |
| JourneyPersistence.JourneyCommandHandler.Handle | application/journey/mgmt/handler.go:43-166 | the table changes only if loading, the command and the version check all succeed |
| JourneyWorld.HandlerIsLoadWorkSave | application/journey/mgmt/handler.go:43-166 | on every reachable table an uninterrupted handler leaves the table of one client's load, work and save and answers the load error or the command's error, never a stale version |
| JourneyWorld.StepKeepsInv | infrastructure/repositories/journey_repository.go:53-121 | each client step keeps: the table holds the last row of each chain, and clients hold journeys of committed rows |
| JourneyWorld.NoLostUpdate | infrastructure/repositories/journey_repository.go:53-121 | on every interleaving each version is committed once, counting from 2, as one successful command applied to the row one version earlier |
| JourneyWorld.CreateNeverOverwrites | infrastructure/repositories/journey_repository.go:62-80 | a fresh journey is refused if and only if its id is in the table |
| JourneyWorld.SaveSucceedsIff | infrastructure/repositories/journey_repository.go:80-118 | saving a loaded journey goes through if and only if the stored row is still the one it was loaded from |
| JourneyWorld.SaveCommits | infrastructure/repositories/journey_repository.go:80-121 | on every interleaving a save that goes through leaves in the table exactly what the client was saving, one version on, and touches no other row; one that does not leaves the table alone |
| JourneyWorld.ChainIsSerial | infrastructure/repositories/journey_repository.go:83-121 | a chain of rows amounts to running its commands on one new journey |
| JourneyWorld.StoredJourneyIsSerial | infrastructure/repositories/journey_repository.go:83-121 | each stored journey is the result of one sequential run, from NewJourney, of exactly the commands committed for it |
| JourneyWorld.StoredRowsRehydrate | infrastructure/repositories/journey_repository.go:254-279 | every stored row rehydrates without error to a journey satisfying the aggregate's invariant |
| JourneyWorld.CommittedPromptsAreBounded | domain/aggregates/journey_methods.go:363-394 | whatever clients interleave, the committed calls stay within the prompt budget and board at most once |
| RouteRules.FindStop | domain/aggregates/route_methods.go:15-22 | the first stop with the id, or -1 exactly when there is none |
| RouteLaws.LogTellsAll | domain/aggregates/route_methods.go:168-380 | after any edits: at least two stops, valid type and period; folding the log reproduces name, type, status, period and stop ids; every event's old values are those the events before it left |
| RouteLaws.ApplyKeepsFaithful | domain/aggregates/route_methods.go:168-380 | each edit, rejected ones included, keeps that |
| RouteLaws.NewIsFaithful | domain/aggregates/route.go:35-109 | it holds of a newly built route |
| RouteLaws.AddRemoveRestores | domain/aggregates/route_methods.go:307-380 | adding a stop with a new id and removing it restores the list |
| RouteEffects.NewRouteDoes | domain/aggregates/route.go:35-109 | every refusal with its error, and otherwise every field and the one event |
| RouteEffects.RehydrateDoes | domain/aggregates/route_rehydrate.go:13-50 | status, version and times are kept, distances calculated again, and nothing is recorded |
| RouteEffects.ChangeStatusDoes | domain/aggregates/route_methods.go:168-188 | always accepted: exactly the status is taken, with one event holding old and new if and only if it differs |
| RouteEffects.UpdateStopsDoes | domain/aggregates/route_methods.go:190-222 | refused below two stops; otherwise exactly the stops are replaced, with one event |
| RouteEffects.ChangeRouteTypeDoes | domain/aggregates/route_methods.go:155-249 | refused for an unknown type; otherwise exactly the type and its detour rate, 1.4, 1.2 or 1.3, with one event if it differs |
| RouteEffects.ChangeActivePeriodDoes | domain/aggregates/route_methods.go:251-279 | refused for an unset or reversed period; otherwise exactly the period, with one event if it differs |
| RouteEffects.ChangeNameDoes | domain/aggregates/route_methods.go:281-305 | refused for an empty name; otherwise exactly the name, with one event if it differs |
| RouteEffects.AddStopDoes | domain/aggregates/route_methods.go:307-337 | refused outside 0 to the length; otherwise the stop stands at the position, the others keep their order, with one event |
| RouteEffects.RemoveStopDoes | domain/aggregates/route_methods.go:339-380 | refused for an unknown id or at two stops; otherwise exactly the first stop with the id is gone, with one event |
| RouteEffects.SuppliedDistancesStay | domain/aggregates/route_methods.go:455-470 | supplied distances are kept but for the first stop's, which becomes 0 |
| RouteEffects.CalculatedStepByStep | domain/aggregates/route_methods.go:460-481 | otherwise each stop lies one segment behind the one before it |
| RouteEffects.DistancesAre | domain/aggregates/route_methods.go:416-437 | the absolute difference of two stops' distances, and the last one's for the whole route |
| RouteLaws.CumulativeIsPrefixSums | domain/aggregates/route_methods.go:455-481 | with a non-negative metric and none supplied, distances are non-decreasing prefix sums from 0 and the total is the whole length |
| RouteLaws.CumulativeIsIdempotent | domain/aggregates/route_methods.go:460-481 | for any stops and metric, calculating twice equals calculating once |
| RouteLaws.NewAndRehydratedAreSettled | domain/aggregates/route_rehydrate.go:13-50 | rebuilding a newly built route keeps its stops and records nothing |
| RouteLaws.RehydrateKeepsIff | domain/aggregates/route_rehydrate.go:13-50 | rebuilding any route that edits can lead to succeeds, and keeps it if and only if its first stop is at 0 and the last distance is positive or every distance is its prefix sum |
| RouteLaws.RemovedFirstStopSettlesIff | domain/aggregates/route_methods.go:339-380 | with supplied distances, removing the first stop survives the next load if and only if the second stop was at 0 |
| RouteLaws.AppendedStopSettlesIff | domain/aggregates/route_methods.go:307-337 | with supplied distances, appending a stop survives the next load if and only if it brings a positive distance |
| RouteLaws.RehydrationMovesStops | domain/aggregates/route_rehydrate.go:13-50 | an input: after losing its first stop a route's other two are 200 metres apart, and 300 once it is loaded again |
| RouteLaws.DistanceIsSegmentSum | domain/aggregates/route_methods.go:416-428 | on calculated stops the distance between two stops is the sum of the segments between |
| RouteLaws.DistanceIsSymmetric | domain/aggregates/route_methods.go:416-428 | symmetric, never negative, an error exactly for an index out of range |
| RouteLaws.DistanceAddsUpIff | domain/aggregates/route_methods.go:420-427 | distances add up through a middle stop if and only if its cumulative distance lies between the ends' |
| RouteLaws.AddStopKeepsOrderIff | domain/aggregates/route_methods.go:307-337 | inserting keeps distances in order if and only if the new stop's own distance fits between its neighbours' |
| RouteLaws.RemoveStopKeepsOrder | domain/aggregates/route_methods.go:339-380 | removing a stop never breaks the order |
| RouteAggregates.Create | domain/aggregates/route.go:35-109 | the checks in order with their errors, and otherwise a valid object that is the route of the rule, distances calculated before the event is recorded |
| RouteAggregates.RouteAggregate.PastIsTold | domain/aggregates/route_methods.go:168-380 | whatever edits the object was given it has at least two stops and valid fields, and with a recorder its log folds to what it now is |
| RouteAggregates.RouteAggregate.CalculateCumulativeDistances | domain/aggregates/route_methods.go:455-481 | the in-place loop writes the prefix sums, or leaves supplied distances alone |
| RouteAggregates.RouteAggregate.ChangeStatus | domain/aggregates/route_methods.go:168-188 | takes the edit its recorded call names; no event when nothing changes |
| RouteAggregates.RouteAggregate.UpdateStops | domain/aggregates/route_methods.go:190-222 | takes its recorded edit: refused below two stops, and the event holds both id lists |
| RouteAggregates.RouteAggregate.ChangeRouteType | domain/aggregates/route_methods.go:224-249 | takes its recorded edit: an unknown type changes nothing, and the detour rate follows the type |
| RouteAggregates.RouteAggregate.ChangeActivePeriod | domain/aggregates/route_methods.go:251-279 | takes its recorded edit: an empty or reversed period changes nothing |
| RouteAggregates.RouteAggregate.ChangeName | domain/aggregates/route_methods.go:281-305 | takes its recorded edit: an empty name changes nothing |
| RouteAggregates.RouteAggregate.AddStop | domain/aggregates/route_methods.go:308-337 | takes its recorded edit: the stop is inserted at any position up to the end |
| RouteAggregates.RouteAggregate.RemoveStop | domain/aggregates/route_methods.go:340-380 | takes its recorded edit: the first match goes while more than two stops remain |
| RouteAggregates.RouteAggregate.FindStopIndex | domain/aggregates/route_methods.go:15-22 | the loop finds the first stop with the id |
| RouteAggregates.RouteAggregate.DistanceBetweenStopIndices | domain/aggregates/route_methods.go:416-428 | the absolute difference, or an error out of range |
| RouteAggregates.RouteAggregate.Perform | domain/aggregates/route_methods.go:168-380 | any edit on the object is recorded and takes its step, so its log keeps telling its story (PastIsTold) |
| SseLimiter.SSEConnectionLimiter.CompareAndSwap | api/http/sse.go:34-34 | writes exactly when the expected value is there |
| SseLimiter.SSEConnectionLimiter.Acquire | api/http/sse.go:21-38 | under any interference every failed round saw room and lost it to a changed counter; it admits exactly when the last load saw room, and never past the limit |
| SseLimiter.SSEConnectionLimiter.Release | api/http/sse.go:40-45 | gives one place back |
| SseLimiter.StepKeepsInv | api/http/sse.go:21-45 | each atomic step of any thread keeps active equal to the number of holders and within a positive limit |
| SseLimiter.StepDoes | api/http/sse.go:21-45 | a full limiter refuses at the load, a stale swap sends the thread back, a current one takes a place, a release gives one back, and no other thread is touched |
| SseLimiter.NeverOverLimit | api/http/sse.go:21-45 | that holds on every interleaving of any number of threads |
| SseLimiter.UndisturbedCasSucceeds | api/http/sse.go:30-36 | a compare-and-swap succeeds if nobody moved the counter since the load |
| SseLimiter.FailedCasMeansProgress | api/http/sse.go:34-36 | a failed compare-and-swap implies another thread moved the counter in between |
| Latency.SortInt64 | infrastructure/redis/metrics.go:143-151 | the nested in-place loops compute the sorted permutation |
| Latency.SinkLeft | infrastructure/redis/metrics.go:145-149 | the inner loop sinks one element into a sorted prefix, keeping all elements and the rest of the array |
| Latency.SortSorts | infrastructure/redis/metrics.go:142-151 | sorting returns a sorted permutation |
| Latency.SortedUnique | infrastructure/redis/metrics.go:142-151 | a sorted sequence is determined by its elements |
| Latency.Index | infrastructure/redis/metrics.go:127-128 | in range, and the whole number of hundredths p of n - 1, rounded down |
| Latency.PercentileRank | infrastructure/redis/metrics.go:110-130 | the percentile is a sample; those no larger are more than p percent of n - 1, those strictly smaller at most p percent |
| Latency.PercentileEnds | infrastructure/redis/metrics.go:110-130 | p = 0 gives the least sample, p = 100 the greatest, and no samples 0 |
| Latency.PercentileMonotone | infrastructure/redis/metrics.go:110-130 | percentiles are monotone in p |
| Latency.PercentileOfPermutation | infrastructure/redis/metrics.go:118-129 | the order of samples in the buffer does not matter |
| Latency.LatencyTracker.constructor | infrastructure/redis/metrics.go:80-84 | an empty buffer of the given size |
| Latency.LatencyTracker.Record | infrastructure/redis/metrics.go:87-98 | the ring holds the last samples in recording order from the write position on |
| Latency.MicrosecondsIs | infrastructure/redis/metrics.go:91-91 | nanoseconds are truncated to thousands, toward zero |
| Latency.LatencyTracker.RecordError | infrastructure/redis/metrics.go:101-107 | counts an error and touches no sample |
| Latency.LatencyTracker.HoldsRecent | infrastructure/redis/metrics.go:87-98 | the buffer holds exactly the multiset of the last min(n, size) samples |
| Latency.LatencyTracker.Percentile | infrastructure/redis/metrics.go:110-130 | copying and sorting in place yields the percentile of the last min(n, size) samples; 0 when empty |
| Latency.LatencyTracker.Stats | infrastructure/redis/metrics.go:133-140 | the three percentiles of the recent samples, in order |

## Left out

- Goroutines, tickers, channels and condition variables: each locked method is one atomic step and a blocking Dequeue is a step taken once its wait has ended; nothing is claimed about waiters being woken.
- Interleavings inside one client callback: the unlocked reads and writes of the manager pointer in the MQTT client are taken as part of the callback's single step, and Start as two steps.
- ClientAcks.StoppedClientAcksIff: any manager may tick, at any clock reading; in the code a manager's loop starts with StartDone or a reset and the clock is monotone, so a manager dropped before its loop started, or one whose entries no later clock reading separates, may be silent though it is not stuck.
- ClientOrder.AcksFollowArrivals: stated for runs in which no Start drops a running manager; a drop breaks the order only if the dropped manager still flushes something, and that half is given as an input (LeakBreaksOrder), since two connections are involved and the ordering rule is per connection.
- The 64-bit width of sequence numbers and counters, and the int64 overflow of the reconnect backoff product: integers are unbounded here.
- Several clock readings within one call are one reading, and the monotonic part of Go times is ignored.
- Floating-point rounding and the haversine formula: distances are reals and the metric is an arbitrary function.
- JSON text, SQL syntax and the microsecond precision of timestamp columns: a row is a record with exact values; deletion and the queries by user are not modelled.
- Latency.LatencyTracker.Stats: its ordering is for three reads with no Record between them, as the code takes the lock for each percentile separately.
- Latency.LatencyTracker.Percentile: p outside 0..100 is out of contract, as in the source, where it can index outside the slice; a buffer of size 0 cannot record.
- Slice aliasing in Route: the code shares and shifts the caller's backing array, the model replaces a sequence.
- The error text, event ids and time stamps taken inside the recorder, and the last-error text of the tracker.
- Nil receivers of the connection limiter, IsActive, direction checks and approximate distances of Route: single-branch readers.
- The User and Bus aggregates, the worker pool, GPS resolution, recommendation ranking, the throughput tracker, metrics export, HTTP middleware and the clients for web and mobile: thin wrappers, omitted code or user interface.
