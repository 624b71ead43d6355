# Verified model of the Qualcomm location stack's stateful core

Most of the repository moves messages between processes. Five places hold protocols, state
machines or arithmetic of their own; this project models those five and proves what they
guarantee, in Dafny 4.11. `dafny verify dfyconfig.toml` checks all of it.

| part | modules |
|---|---|
| synchronous requests over eight shared slots | `SyncTable` (slots and the imperative `SyncArray`), `SyncProtocol` (the concurrent machine and its history), `SyncInvariant`, `SyncTheorems`, `SyncCapacity`, `SyncScan`, `SyncOrigins`, `SyncProgress` |
| request registries of the daemon | `FusedFixes`, `FusedRuns`, `TerrestrialFixes`, `ConfigRequests`, and `LocationApiServiceClass` with the handlers as they update their maps |
| pulse-per-second time synchronisation | `PpsSync` |
| handler of one client | `PositionReports`, `Geofences`, and `LocHalDaemonClientHandlerClass` with the methods as they update arrays and maps |
| encoder for blacklisted satellites | `SvBlacklist` |

`Options` holds the usual optional value.

## How the parts are built

**Synchronous requests.** One invocation of `loc_sync_send_req` or `loc_sync_process_ind` is
one activation with a program counter; there may be any number at once. A step takes a mutex,
runs one critical section up to its unlock, sends, blocks, or wakes. The global mutex, the
eight slot locks and the slots are the machine. A separate history, which no machine step can
read, notes who owns each slot and which indication met which call in which phase. A theorem
speaks of the state after any possible interleaving (`SyncProtocol.Possible`). A wait that ends
without a signal is a label of its own, `SpuriousWake`, so "no spurious wakeups" is visible
where it is assumed. Indications carry the handle of an open client.

**Daemon.** Every handler runs under `mMutex` and is one step. Requests are told apart by their
timer objects; an observer keeps a ledger of HAL calls, the replies to each client, and how each
request ended. The methods of `LocationApiService` update fields and run the iterate-and-erase
loops of the source; each is proved equal to its function, and the theorems over runs are about
the functions. The same holds for `LocHalDaemonClientHandler`, `GnssPps` and `SyncArray`; the
function of the indication scan, `SyncTable.ProcessedBy`, is also what the concurrent machine
does when nobody steps in between (`SyncScan.IndicationAlone`).

**Statements.** The main theorems say what happens in terms of the arguments of calls and
messages and of the history of the run. Where the program tests something, they write the test
out with its limits as numbers and do not use the program's own predicate or constant.

**Arithmetic.** Nanoseconds and milliseconds are exact integers, accuracies exact reals. The
32-bit steps of the interval rounding and of the guard band are written with their wrap-around
and shown never to wrap. A 64-bit satellite mask is the set of its one bits.

## What the proofs found

- With all eight slots taken, `loc_sync_send_req` sends nothing and reports success. Without
  spurious wakeups a success has an indication behind it exactly when some slot was free at the
  call's search (`SyncCapacity.SuccessIsGenuineExactly`; `SyncCapacity.FullTableRun`, such a run
  of nine calls). Since the wait does not check again, a wakeup without a signal also makes it
  report success (`SyncProgress.SpuriousWakeReportsSuccess`).
- A timer message of the daemon names only its client. If the client asks again while the
  message is under way, the new request times out at once (`FusedRuns.StaleTimerMessage`, exactly
  when; `FusedRuns.StaleTimerRun`, such a run).
- A configuration request is lost exactly when the HAL hands out a session id that is still in
  use, because `emplace` keeps the older entry (`ConfigRequests.LostIffReused`, exactly when;
  `ConfigRequests.ReusedIdRun`, such a run).
- An `addGeofences` request without geofences, after one that was accepted, notes a pending
  message although the HAL was not asked; later responses are then taken for the wrong request,
  and a removed geofence stays in the map (`Geofences.PendingFitsExactly`, `Geofences.EmptyAddRun`).
- A response about a geofence session that nobody has erases the client's geofence with id 0
  (`Geofences.ErasedExactly`, exactly when; `Geofences.UnknownSessionRun`, a run in which two
  removals of another geofence do it).
- These two inputs do not come from the repository's own client library: it stops empty additions
  (`client_api/src/LocationClientApi.cpp:662-665`), and its ids count up from 1 and give 0 only
  when the 32-bit counter wraps (`client_api/src/LocationClientApiImpl.cpp:93-104`). They can come
  from other senders of the daemon's messages.
- SBAS ids from 208 to 246 pass the range test with a shift of 64 or more, although the comment
  in the code gives 183 to 191 (`SvBlacklist.DefinedExactly`; `SvBlacklist.FaithfulExactly`, when
  that spoils the mask; `SvBlacklist.OvershiftIsUnfaithful`, a list for which it does).
- The zero that marks an unset clock offset in `gnsspps.c` cannot be confused with a real
  offset: equal clocks would have been taken for boot time (`PpsSync.ZeroIsNoOffset`).

## Model

| member | source | states |
|---|---|---|
| `SyncTable.SyncArray.Init` | loc_api/loc_api_v02/loc_api_sync_req.cpp:103-141 | the first call resets everything, a second one leaves requests in flight alone |
| `SyncTable.SyncArray.Alloc` | loc_api/loc_api_v02/loc_api_sync_req.cpp:248-268 | takes the lowest free slot and nothing else; fails exactly when all are taken |
| `SyncTable.SyncArray.Free` | loc_api/loc_api_v02/loc_api_sync_req.cpp:287-318 | resets one slot; the array-wide flag goes exactly with the last slot in use |
| `SyncTable.SyncArray.Select` | loc_api/loc_api_v02/loc_api_sync_req.cpp:358-373 | fills the allocated slot, no other |
| `SyncTable.SyncArray.ProcessInd` | loc_api/loc_api_v02/loc_api_sync_req.cpp:161-228 | the payload goes to the lowest matching slot with a buffer and to no other; matching slots up to it are signalled or marked, slots above are not touched; as one piece it is `SyncTable.ProcessedBy` |
| `SyncTable.ScanIsWell` | loc_api/loc_api_v02/loc_api_sync_req.cpp:183-221 | the same for the scan as a function, from any slot on, in terms of the slots' fields |
| `SyncInvariant.AlwaysInv` | loc_api/loc_api_v02/loc_api_sync_req.cpp:161-530 | the protocol's invariant (locks, owners, slots, scans, call records) holds after every interleaving |
| `SyncTheorems.BufferHasLiveOwner` | loc_api/loc_api_v02/loc_api_sync_req.cpp:287-374 | a payload pointer is stored only while its own call is between select and free |
| `SyncTheorems.CopyGoesToLiveCall` | loc_api/loc_api_v02/loc_api_sync_req.cpp:191-204 | an indication copies only into the buffer of a call that has not returned and asked for it |
| `SyncTheorems.PayloadGoesToOneSlot` | loc_api/loc_api_v02/loc_api_sync_req.cpp:183-221 | in every interleaving an indication matches slots in rising order and gives its payload to the last of them only |
| `SyncScan.ScanMarksMatch` | loc_api/loc_api_v02/loc_api_sync_req.cpp:189-220 | in every interleaving, a slot that matches when the scan comes to it is recorded and touched, and its call is signalled, on its way out of the wait, or finds the mark; other slots are left alone |
| `SyncScan.AwaitedIndicationIsMet` | loc_api/loc_api_v02/loc_api_sync_req.cpp:189-220 | in every interleaving an indication meets every selected call with its handle and id that its scan comes to: a sleeping one is signalled, one before its wait finds the mark, and the payload is copied exactly if both sides have one |
| `SyncScan.IndicationAlone` | loc_api/loc_api_v02/loc_api_sync_req.cpp:161-228 | the machine's scan without other steps in between does exactly what the imperative one does, and wakes exactly the calls it signals |
| `SyncTheorems.ResultsAreExact` | loc_api/loc_api_v02/loc_api_sync_req.cpp:396-530 | what each result of a request means: no slot, failed send, early indication, wakeup, timeout; an internal failure is never reported |
| `SyncOrigins.SendDecides` | loc_api/loc_api_v02/loc_api_sync_req.cpp:495-511 | over every run, a call's result is settled as a failed send with a code exactly if its send returned that code, and it goes to its wait exactly if its send succeeded |
| `SyncOrigins.FailedSendsAreReported` | loc_api/loc_api_v02/loc_api_sync_req.cpp:495-529 | a returned call reports a failed send exactly with the code of that send; one that slept, or succeeded with a slot, was sent |
| `SyncOrigins.ArgumentsAreGiven` | loc_api/loc_api_v02/loc_api_sync_req.cpp:161-166 | handles, ids and buffers are those given by the caller, and indications those that arrived |
| `SyncTheorems.WakeupsAreInTheRun` | loc_api/loc_api_v02/loc_api_sync_req.cpp:440-450 | a wait ends without a signal, or expires, only where the run says so |
| `SyncTheorems.SuccessNeedsIndication` | loc_api/loc_api_v02/loc_api_sync_req.cpp:396-530 | without spurious wakeups a call with a slot succeeds only on an indication with its handle and id, met after its select |
| `SyncTheorems.EarlyIndicationNeverBlocks` | loc_api/loc_api_v02/loc_api_sync_req.cpp:212-218 | an indication between select and wait makes the wait return success without blocking |
| `SyncTheorems.SleepersHaveMetNothing` | loc_api/loc_api_v02/loc_api_sync_req.cpp:206-211 | no lost wakeup: a sleeping call is unsignalled exactly when no indication has met it |
| `SyncTheorems.SlotsMatchCalls` | loc_api/loc_api_v02/loc_api_sync_req.cpp:248-318 | slots in use and calls between alloc and free correspond one to one |
| `SyncTheorems.AtMostEightOwners` | loc_api/loc_api_v02/loc_api_sync_req.cpp:248-268 | never more than eight calls hold a slot |
| `SyncTheorems.FreedExactlyOnce` | loc_api/loc_api_v02/loc_api_sync_req.cpp:477-530 | a call that got a slot frees it exactly once on every path |
| `SyncTheorems.InternalFailuresUnreachable` | loc_api/loc_api_v02/loc_api_sync_req.cpp:402-430 | the invalid-slot and busy branches cannot be taken |
| `SyncTheorems.InUseIsExact` | loc_api/loc_api_v02/loc_api_sync_req.cpp:173-225 | the array-wide flag holds exactly while some call holds a slot, so the early return drops nothing |
| `SyncTheorems.UnselectedSlotsAreReset` | loc_api/loc_api_v02/loc_api_sync_req.cpp:294-304 | free and not yet selected slots hold reset fields and match no valid indication |
| `SyncTheorems.LockOrder` | loc_api/loc_api_v02/loc_api_sync_req.cpp:171-227 | nobody asks for the global mutex while holding a lock, nor for a second slot lock |
| `SyncTheorems.NoDeadlock` | loc_api/loc_api_v02/loc_api_sync_req.cpp:161-530 | while anybody is inside, somebody can step |
| `SyncProgress.WorkIsBounded` | loc_api/loc_api_v02/loc_api_sync_req.cpp:161-530 | a run has at most 30 steps per call or indication that entered |
| `SyncProgress.QuietMeansReset` | loc_api/loc_api_v02/loc_api_sync_req.cpp:287-318 | with nobody inside, the table is the initial one and every call has its result |
| `SyncProgress.EveryoneCanLeave` | loc_api/loc_api_v02/loc_api_sync_req.cpp:161-530 | from every reachable state all can leave by their own steps |
| `SyncCapacity.SlotIffFree` | loc_api/loc_api_v02/loc_api_sync_req.cpp:248-268 | in every run a call has a slot exactly when one was free at its search, and goes without exactly when all eight were in use |
| `SyncCapacity.SuccessIsGenuineExactly` | loc_api/loc_api_v02/loc_api_sync_req.cpp:477-530 | without spurious wakeups, a success has an indication behind it exactly when some slot was free at the search |
| `SyncCapacity.FullTableReportsSuccess` | loc_api/loc_api_v02/loc_api_sync_req.cpp:487-529 | with all slots taken a request reports success at once |
| `SyncCapacity.FillSlots` | loc_api/loc_api_v02/loc_api_sync_req.cpp:248-268 | a run in which n calls take the first n slots |
| `SyncCapacity.FullTableRun` | loc_api/loc_api_v02/loc_api_sync_req.cpp:487-529 | a run of nine calls and no indication in which the ninth succeeds |
| `SyncProgress.SpuriousWakeReportsSuccess` | loc_api/loc_api_v02/loc_api_sync_req.cpp:439-452 | a run in which a request succeeds although no indication came |
| `FusedFixes.GetSinglePosKeepsInv` | location_hal_daemon/LocationApiService.cpp:2102-2165 | a request, re-request or cancellation keeps ledger, conservation, replies and freshness |
| `FusedFixes.OnLocationKeepsInv` | location_hal_daemon/LocationApiService.cpp:1887-1920 | so does a position report |
| `FusedFixes.TimeoutKeepsInv` | location_hal_daemon/LocationApiService.cpp:2182-2200 | so does a timeout |
| `FusedFixes.DeleteClientKeepsInv` | location_hal_daemon/LocationApiService.cpp:871-895 | so does the deletion of a client |
| `FusedRuns.AlwaysInv` | location_hal_daemon/LocationApiService.cpp:2102-2200 | all of it holds after every run |
| `FusedRuns.SessionLedger` | location_hal_daemon/LocationApiService.cpp:2102-2180 | the HAL's starts and stops fit each other, one session at most is open, it is the remembered one, and only while requests are pending |
| `FusedRuns.SessionIffPending` | location_hal_daemon/LocationApiService.cpp:2102-2180 | if no start fails, the session is open exactly while requests are pending |
| `FusedRuns.SessionExactly` | location_hal_daemon/LocationApiService.cpp:2140-2180 | which event starts the session, with the id of the HAL, and which stops it |
| `FusedRuns.AskIsAccepted` | location_hal_daemon/LocationApiService.cpp:2136-2160 | every message that asks for a fix is accepted, if there is an instance, with its own quality of service; no other message makes a request |
| `FusedRuns.RequestsAreTheAsks` | location_hal_daemon/LocationApiService.cpp:2136-2160 | every request comes from one of the messages in the run, with its client and quality of service |
| `FusedRuns.RequestsAreConserved` | location_hal_daemon/LocationApiService.cpp:1887-1915 | each accepted request is pending or has left, never both |
| `FusedRuns.OutcomesAreFinal` | location_hal_daemon/LocationApiService.cpp:2102-2200 | a request leaves once: its outcome never changes |
| `FusedRuns.RequestLeavesExactly` | location_hal_daemon/LocationApiService.cpp:1887-2200 | the events that end a pending request, and how, as an if-and-only-if |
| `FusedRuns.RepliesAreRight` | location_hal_daemon/LocationApiService.cpp:1887-2200 | at most one reply per request, to its own client, in order; a success has time, position and an accuracy that meets the one in the client's message |
| `FusedRuns.EndedRequestsAreAnswered` | location_hal_daemon/LocationApiService.cpp:1887-2200 | a request served or timed out while its client is registered is answered |
| `FusedRuns.RepliesExactly` | location_hal_daemon/LocationApiService.cpp:1887-2200 | which event sends which reply to which client: success with the report, timeout with the stored location, nothing else |
| `FusedRuns.StoredIsLatest` | location_hal_daemon/LocationApiService.cpp:1887-2200 | the stored location is the last one reported since the set of requests last became non-empty |
| `FusedRuns.NoStaleLocation` | location_hal_daemon/LocationApiService.cpp:2167-2199 | with no request pending no location is stored, even after late reports |
| `FusedRuns.StaleTimerMessage` | location_hal_daemon/LocationApiService.cpp:2182-2226 | when a timer message ends a request that is not its own |
| `FusedRuns.StaleTimerRun` | location_hal_daemon/LocationApiService.cpp:2182-2226 | such a run |
| `TerrestrialFixes.NetworkRunsIffPending` | location_hal_daemon/LocationApiService.cpp:2042-2097 | network location runs exactly while requests are pending; starts and stops alternate, whatever happens to consent |
| `TerrestrialFixes.ConsentIsLatest` | location_hal_daemon/LocationApiService.cpp:1554-1564 | the consent is the last that was given |
| `TerrestrialFixes.GroundStepExactly` | location_hal_daemon/LocationApiService.cpp:1866-2097 | when a terrestrial request becomes pending and when it ends, and every reply that a client gets |
| `ConfigRequests.AlwaysConfigInv` | location_hal_daemon/LocationApiService.cpp:1741-1841 | each configuration request is registered, closed or lost, in one way only, after every run |
| `ConfigRequests.ResponsesMatchRequests` | location_hal_daemon/LocationApiService.cpp:1741-1841 | each control response goes to the client that asked, with its own message id, once per request |
| `ConfigRequests.LostIffReused` | location_hal_daemon/LocationApiService.cpp:1741-1752 | requests are lost exactly when a session id in use is handed out again |
| `ConfigRequests.FirstAnswerCloses` | location_hal_daemon/LocationApiService.cpp:1764-1841 | the first of the three callbacks closes the request; later ones find nothing |
| `ConfigRequests.FateIsExact` | location_hal_daemon/LocationApiService.cpp:1741-1841 | over every run, the replies that answer a request are exactly: the first later answer that names its session, with its error and the request's message, to its client if registered then; none if its session was in use; a failure at once without a session |
| `ConfigRequests.FateIsFinal` | location_hal_daemon/LocationApiService.cpp:1741-1841 | a request that was answered or lost stays so |
| `ConfigRequests.NoSessionIsRefused` | location_hal_daemon/LocationApiService.cpp:1752-1759 | over every run, id 0 is answered with failure at once and with nothing else ever |
| `ConfigRequests.ReusedIdRun` | location_hal_daemon/LocationApiService.cpp:1741-1752 | a run in which the second of two requests under one id is never answered |
| `LocationApiServiceClass.LocationApiService.HandleGetSinglePos` | location_hal_daemon/LocationApiService.cpp:2102-2165 | the handler does what `FusedFixes.GetSinglePos` says |
| `LocationApiServiceClass.LocationApiService.StopTrackingSessionForSingleFixes` | location_hal_daemon/LocationApiService.cpp:2167-2180 | stops the session and forgets the location when nothing is pending |
| `LocationApiServiceClass.LocationApiService.SingleFixRequestTimeout` | location_hal_daemon/LocationApiService.cpp:2182-2200 | the handler does what `FusedFixes.Timeout` says |
| `LocationApiServiceClass.LocationApiService.ServeClients` | location_hal_daemon/LocationApiService.cpp:1896-1911 | the iterate-and-erase loop, in any order of the map, serves exactly the clients whose accuracy is met |
| `LocationApiServiceClass.LocationApiService.OnGnssLocationInfo` | location_hal_daemon/LocationApiService.cpp:1887-1916 | the callback does what `FusedFixes.OnLocation` says |
| `LocationApiServiceClass.LocationApiService.DeleteClientByName` | location_hal_daemon/LocationApiService.cpp:871-895 | removes the client and both its requests |
| `LocationApiServiceClass.LocationApiService.HandleGetSingleTerrestrialPos` | location_hal_daemon/LocationApiService.cpp:2042-2077 | the handler does what its function says |
| `LocationApiServiceClass.LocationApiService.GtpFixRequestTimeout` | location_hal_daemon/LocationApiService.cpp:2079-2097 | the handler does what its function says |
| `LocationApiServiceClass.LocationApiService.OnGtpWwanTracking` | location_hal_daemon/LocationApiService.cpp:1866-1884 | a fix goes to every registered client that waits, in any order, and ends the session |
| `LocationApiServiceClass.LocationApiService.AddConfigRequestToMap` | location_hal_daemon/LocationApiService.cpp:1741-1759 | registers, loses or refuses a request |
| `LocationApiServiceClass.LocationApiService.OnControlResponse` | location_hal_daemon/LocationApiService.cpp:1764-1779 | answers and erases the request of a session |
| `LocationApiServiceClass.LocationApiService.OnControlCollectiveResponse` | location_hal_daemon/LocationApiService.cpp:1781-1806 | the same for a collective response of one, and nothing otherwise |
| `LocationApiServiceClass.LocationApiService.OnGnssConfig` | location_hal_daemon/LocationApiService.cpp:1808-1841 | the same, as a success |
| `LocationApiServiceClass.LocationApiService.ConfigUserConsent` | location_hal_daemon/LocationApiService.cpp:1554-1610 | takes over the consent and registers the configuration request |
| `PpsSync.TimeDifference` | gnsspps/gnsspps.c:139-149 | exactly time2 - time1, normalised |
| `PpsSync.TimeAdd` | gnsspps/gnsspps.c:152-162 | exactly the sum, normalised |
| `PpsSync.ThereAndBack` | gnsspps/gnsspps.c:139-162 | adding the difference of two clocks is exactly t + boot - real, and adding the opposite one undoes it |
| `PpsSync.NsIs` | gnsspps/gnsspps.c:139-170 | a timestamp's nanoseconds, and when it is normalised |
| `PpsSync.ClockTypeIs` | gnsspps/gnsspps.c:180-203 | boot time within 100 ms of the boot clock, wall-clock time otherwise within 100 ms of the wall clock |
| `PpsSync.GnssPps.ComputeRealToBootTime` | gnsspps/gnsspps.c:206-285 | the method, over the static variables, does what `PpsSync.Compute` says |
| `PpsSync.GnssPps.Read` | gnsspps/gnsspps.c:289-336 | likewise for `PpsSync.ReadPps` |
| `PpsSync.GnssPps.GetPPS` | gnsspps/gnsspps.c:411-435 | hands out both stored timestamps and the boot clock; reports success and writes nothing while inactive |
| `PpsSync.PulseReachesCompute` | gnsspps/gnsspps.c:306-326 | a pulse is not ignored exactly when none of the last N pulses up to it is the first one or follows an outage |
| `PpsSync.FailuresDoNotMatter` | gnsspps/gnsspps.c:299-305 | rounds without a pulse change nothing |
| `PpsSync.ZeroIsNoOffset` | gnsspps/gnsspps.c:180-249 | the offset that is stored is never the zero that stands for none |
| `PpsSync.OffsetTest` | gnsspps/gnsspps.c:239-269 | the code's test for a jump is: within 10 ms of the offset at the last pulse in wall-clock time, if any |
| `PpsSync.ReadPublishes` | gnsspps/gnsspps.c:206-336 | which pulses change the pair of timestamps, by their distances from the two clocks, and to what |
| `PpsSync.SnapshotIsLastPublished` | gnsspps/gnsspps.c:206-336 | both timestamps always come from the last published pulse |
| `PpsSync.NoneLater` | gnsspps/gnsspps.c:206-336 | that pulse is the last: no later one was published |
| `PpsSync.EverySnapshot` | gnsspps/gnsspps.c:206-435 | every pair that can be handed out is normalised, at most 100 ms apart, and that of the last published pulse, or zero before the first |
| `PpsSync.ResyncAfterJump` | gnsspps/gnsspps.c:250-269 | after a jump the next pulse with a settled offset is stored, moved to boot time |
| `PpsSync.JumpIsSkipped` | gnsspps/gnsspps.c:254-269 | a pulse whose offset has jumped leaves the stored pair alone |
| `PositionReports.GetSupportedTbf` | location_hal_daemon/LocHalDaemonClientHandler.cpp:1429-1448 | the result is an interval that the engines support |
| `PositionReports.TbfIs` | location_hal_daemon/LocHalDaemonClientHandler.cpp:1424-1448 | the rounded interval, range by range as documented |
| `PositionReports.TbfIsNearest` | location_hal_daemon/LocHalDaemonClientHandler.cpp:1424-1448 | it is the nearest below under a second, the nearest above from a second on |
| `PositionReports.TbfIsIdempotentAndMonotone` | location_hal_daemon/LocHalDaemonClientHandler.cpp:1429-1448 | rounding keeps order, and leaves exactly the supported intervals alone |
| `PositionReports.IntervalIsSupported` | location_hal_daemon/LocHalDaemonClientHandler.cpp:261-312 | over all runs the interval is 0 or supported, so the guard band never wraps around |
| `PositionReports.TrackingIsHistory` | location_hal_daemon/LocHalDaemonClientHandler.cpp:261-312 | session, interval and tracking flag are those of the starts, stops and updates that took effect, the interval rounded from the last of them |
| `PositionReports.StoredIsHistory` | location_hal_daemon/LocHalDaemonClientHandler.cpp:950-988 | the stored time is that of the engine's last report that passed; the flag says whether its last report was final |
| `PositionReports.PassesExactly` | location_hal_daemon/LocHalDaemonClientHandler.cpp:937-990 | when a report passes, in terms of the events alone: GPS alignment, final fixes, clock steps, and 30 ms less than the interval |
| `PositionReports.HeldBackIsRecent` | location_hal_daemon/LocHalDaemonClientHandler.cpp:971-983 | a report is held back only less than the interval less 30 ms after one that passed |
| `PositionReports.EnginesAreIndependent` | location_hal_daemon/LocHalDaemonClientHandler.cpp:937-990 | filtering an interleaved stream is filtering each engine's stream alone |
| `Geofences.AlwaysInjective` | location_hal_daemon/LocHalDaemonClientHandler.cpp:356-367 | with fresh ids no two client ids ever share a session |
| `Geofences.AdditionMapsExactly` | location_hal_daemon/LocHalDaemonClientHandler.cpp:356-361 | an accepted addition gives each id its session, the last one listed, and changes no other |
| `Geofences.LookupExactly` | location_hal_daemon/LocHalDaemonClientHandler.cpp:368-381 | other requests find the session of each id, and enter 0 for unknown ones |
| `Geofences.UnansweredAreTheAsks` | location_hal_daemon/LocationApiService.cpp:1248-1388 | the requests that wait for a response are those of the run's messages, kind by kind, after as many as were answered |
| `Geofences.KnownIdsRoundTrip` | location_hal_daemon/LocHalDaemonClientHandler.cpp:368-400 | at any time the ids that have a session come back unchanged |
| `Geofences.RoundTripExactly` | location_hal_daemon/LocHalDaemonClientHandler.cpp:368-400 | for any ids, unknown ones included, exactly when the round trip works for every order of the hash table |
| `Geofences.ErasedExactly` | location_hal_daemon/LocHalDaemonClientHandler.cpp:552-627 | which ids a response erases |
| `Geofences.UnknownSessionRun` | location_hal_daemon/LocHalDaemonClientHandler.cpp:383-400 | a run in which a response to a removal of another geofence takes id 0 out of the map |
| `Geofences.LeavesExactly` | location_hal_daemon/LocHalDaemonClientHandler.cpp:552-627 | at any point of a run without phantom messages: by which responses, to which request of the run, an id with a session leaves the map, and that only an addition gives it another session |
| `Geofences.PendingFitsExactly` | location_hal_daemon/LocationApiService.cpp:1248-1388 | when the queue of pending messages matches the responses to come |
| `Geofences.EmptyAddRun` | location_hal_daemon/LocationApiService.cpp:1281-1293 | a run in which it does not |
| `LocHalDaemonClientHandlerClass.LocHalDaemonClientHandler.StartTracking` | location_hal_daemon/LocHalDaemonClientHandler.cpp:261-276 | the method does what its function says |
| `LocHalDaemonClientHandlerClass.LocHalDaemonClientHandler.StopTracking` | location_hal_daemon/LocHalDaemonClientHandler.cpp:278-288 | likewise |
| `LocHalDaemonClientHandlerClass.LocHalDaemonClientHandler.UpdateTrackingOptions` | location_hal_daemon/LocHalDaemonClientHandler.cpp:298-312 | likewise |
| `LocHalDaemonClientHandlerClass.LocHalDaemonClientHandler.FilterPositionReport` | location_hal_daemon/LocHalDaemonClientHandler.cpp:937-990 | the in-place update of the two arrays is the function on filters |
| `LocHalDaemonClientHandlerClass.LocHalDaemonClientHandler.SetGeofenceIds` | location_hal_daemon/LocHalDaemonClientHandler.cpp:356-361 | enters all pairs, later ones over earlier ones |
| `LocHalDaemonClientHandlerClass.LocHalDaemonClientHandler.EraseGeofenceIds` | location_hal_daemon/LocHalDaemonClientHandler.cpp:363-367 | takes out exactly the given ids |
| `LocHalDaemonClientHandlerClass.LocHalDaemonClientHandler.GetSessionIds` | location_hal_daemon/LocHalDaemonClientHandler.cpp:368-381 | the session of each id, and 0 with a new entry for an unknown one |
| `LocHalDaemonClientHandlerClass.LocHalDaemonClientHandler.GetClientIds` | location_hal_daemon/LocHalDaemonClientHandler.cpp:383-400 | an id with that session if there is one, otherwise 0, in any order of the hash table |
| `LocHalDaemonClientHandlerClass.LocHalDaemonClientHandler.HandleAddGeofences` | location_hal_daemon/LocationApiService.cpp:1248-1299 | the handler does what its function says |
| `LocHalDaemonClientHandlerClass.LocHalDaemonClientHandler.HandleRefer` | location_hal_daemon/LocationApiService.cpp:1301-1388 | likewise for remove, modify, pause and resume |
| `LocHalDaemonClientHandlerClass.LocHalDaemonClientHandler.OnCollectiveResponseCallback` | location_hal_daemon/LocHalDaemonClientHandler.cpp:552-641 | names the client ids, takes the oldest pending message and erases accordingly; without a sender does nothing |
| `SvBlacklist.DefinedExactly` | integration_api/src/LocationIntegrationApi.cpp:153-197 | SBAS ids from 208 to 246 are accepted and shift by 64 or more, all other accepted entries by less; all documented ids are accepted |
| `SvBlacklist.PositionsDistinct` | integration_api/src/LocationIntegrationApi.cpp:153-197 | distinct satellites of a constellation have distinct bits, also across the two SBAS ranges |
| `SvBlacklist.FaithfulExactly` | integration_api/src/LocationIntegrationApi.cpp:121-200 | when each bit of a mask is set exactly for the entries of the list, whatever the compiler does |
| `SvBlacklist.SatelliteHasBit` | integration_api/src/LocationIntegrationApi.cpp:127-197 | the satellite id of every bit of every mask, counted from the first documented id |
| `SvBlacklist.OvershiftIsUnfaithful` | integration_api/src/LocationIntegrationApi.cpp:161-197 | a list whose mask depends on the compiler |
| `SvBlacklist.BitIsSatellite` | integration_api/src/LocationIntegrationApi.cpp:121-200 | every bit of every mask is set exactly if its satellite, or id 0 of its constellation, is listed |
| `SvBlacklist.OnlyTheSetMatters` | integration_api/src/LocationIntegrationApi.cpp:121-200 | order and repetition of the entries do not matter |
| `SvBlacklist.LocationIntegrationApi.ConfigConstellations` | integration_api/src/LocationIntegrationApi.cpp:97-218 | what is sent, entry by entry: which bits, which constellations are blacklisted (by id 0 only, SBAS never) and which stay enabled |
| `SvBlacklist.LocationIntegrationApi.ConfigConstellationSecondaryBand` | integration_api/src/LocationIntegrationApi.cpp:220-276 | the secondary band stays enabled exactly for the constellations not given |

## Left out

- Protocol buffers, message dispatch, sockets, QMI loading, device and file access: each is a step or a parameter of the environment.
- Sending failures: messages to clients are assumed to arrive; a failed send deletes the client in the source.
- `mPendingMessages` of tracking and batching: the service pushes entries without asking the HAL, so no correspondence holds.
- `performMaintenance`: its pings are left out; the deletions that follow from them are atomic steps of the model, although the source makes them outside the lock.
- `LocHalDaemonClientHandler::cleanup`, subscriptions, batching, and all forwarding of reports to sockets.
- The contents of configuration responses, and the status update that `onGnssConfigCallback` sends for session 0.
- A failing `LocationAPI::createInstance` for terrestrial fixes; for fused fixes the failure is modelled.
- `synergy_loc_api`, `client_api` and the test application: forwarding, conversion tables and user interface.
- LocationApiServiceClass.LocationApiService.DeleteClientByName: does not model the cleanup of the client's handler that ends the source's function.
- LocationApiServiceClass.LocationApiService.OnGnssConfig: does not model the configuration's content, nor the status update for session 0.
- LocationApiServiceClass.LocationApiService.ConfigUserConsent: does not create the network provider's instance, which is assumed to exist.
- SyncTable.SyncArray.ProcessInd: describes an indication without other threads in between; what holds with them is in `SyncTheorems` and `SyncScan.ScanMarksMatch`.
- SyncProtocol.Possible: initialisation comes before all calls, the unlocked test of `slot_in_use` before the wait is one atomic read, and pointers and handles are numbers with 0 for null.
- PpsSync.GnssPps.GetPPS: starting and stopping the thread is not modelled; `isActive` is a field that the environment sets.
- PpsSync.EverySnapshot: assumes that clocks and pulse timestamps are normalised; an interrupted `pps_fetch` counts as a pulse with whatever its buffer holds. `time_t` and `long` do not overflow.
- PositionReports.StoredIsHistory: assumes that the filter's arrays and `minInterval` start at zero, which the constructor of the source leaves open; boot times are unbounded.
- Geofences.PendingFitsExactly: assumes one response per request, in order; a null answer of the HAL to `addGeofences` is a refusal without a response.
- SvBlacklist.FaithfulExactly: the constants `GNSS_SV_CONFIG_*` and the constellation bits are defined outside the repository; the first ids are those of the ranges documented for `GnssSvIdInfo`, and masks are sets of bit positions and of constellations.
