# A verified model of the car-park simulation server

The server simulates a car park in whole ticks. In each tick at most one vehicle arrives, the
vehicles whose time is up depart, the waiting queue is drained into the free spots, two counters
are overwritten, and the clock advances. Clients talk to the server over a byte stream; several
of them may ask for snapshots, and several threads may stop the simulation, while the ticks go on.

The same truth is kept four times in the program: in the array of spots with its counter, in a
linked queue with its size, in each vehicle's own fields, and in running counters with
saturating decrements. Little of it is checked where it is used. This project models the program
as classes with the program's own fields, proves each method equal to a function on values, and
proves about those functions what the program relies on.

## How it is organised

| part | modules |
|---|---|
| machine words, the configuration and its validation | `Words`, `Configuration` |
| the objects, each with its specification on values | `Vehicles`, `Queues`, `Parkings`, `Statistics`, `Simulations`, `Runs` |
| what every tick keeps, and how vehicle records change | `Invariants`, `Evolution`, `Draining`, `Timing` |
| what a whole run amounts to | `Schedule`, `Servers`, `Loss`, `Ledger`, `SpotSeconds`, `Waiting`, `Stays`, `Arrivals`, `Reports`, `History`, `Bookings` |
| locks, stopping and snapshots under interleaving | `Locking`, `Interleavings`, `Progress` |
| the wire | `Codec`, `Layout`, `Sockets`, `Network`, `Handlers`, `Conversations`, `AnyPeer` |
| from the lock to the client | `EndToEnd` |

A run is given by a configuration, what `rand` returned when the simulation was created, and what
it returned in each tick; every theorem about runs holds for all of them. `Simulations.After` is
the state after any number of ticks.

`dafny verify dfyconfig.toml` checks everything.

## The main results

* The tick loop refines a queue without ticks. In the waiting mode every vehicle parks at the
  tick at which a first-come-first-served system with as many servers as spots starts serving it
  (`Servers.TickLoopRefinesServers`), which is the first tick at which fewer than all spots are
  held by earlier vehicles (`Schedule.RunSchedules`). In the other mode the park is a loss system
  (`Loss.RunLoses`).
* Over a whole run the occupied spots, summed over ticks, are exactly the seconds booked plus the
  seconds still to be booked (`SpotSeconds.SpotSecondsAreConserved`). The counters balance, the
  saturating decrements never saturate, and the overwritten counters were right already
  (`Ledger`).
* Nobody overtakes, nobody waits longer than a bound computed from the queue position, and every
  stay lasts the vehicle's parking time exactly when its departure time fits in 32 bits; otherwise
  it lasts no tick or one (`Stays`, `Waiting`).
* Every run follows its draws: who arrives when, and with what parking time, is fixed by them
  (`Arrivals.RunFollowsDraws`). Every field of both snapshots is a number of vehicles, or of refusals
  and departures so far, or an average of them (`History.SnapshotsTell`).
* Under any interleaving of the thread with any number of callers a snapshot is that of one tick
  boundary; a stop stops, whatever the simulation is doing, with at most one more tick body, and that
  one can begin; the thread is joined at most once; nobody deadlocks, and every run without new calls ends after a bounded number of
  steps with everybody returned (`Interleavings`, `Progress`).
* In any session, for any answers of the simulation, both programs read every header at a frame
  boundary, although receivers ignore the announced length and joining has no acknowledgement
  (`Conversations`). What a client decodes tells what has happened up to one tick boundary, in all
  its fields (`EndToEnd`). Types, lengths, offsets and byte order are spelled out (`Layout`), and so
  is what either side does with a stream that keeps to no protocol (`AnyPeer`).

## Wrap-around

The validation puts no upper bound on intervals and parking times, so departure and arrival times
can wrap around in 32 bits; the client's menu does bound them
(`Configuration.MenuCapsPreventWrap`). Nothing is assumed about this except where it matters:

* `Stays.StayInRun` says how long a stay lasts in every run of every validated configuration,
  wrapped or not; `Stays.StayIsExactIffNoWrap` that it is exact if and only if the sum of the park
  tick and the parking time fits. `Stays.ValidationDoesNotPreventWrap` is a run in which it is not.
* What identifies a park tick or a departure by the departure time (`Timing`, `Schedule`, `Servers`,
  `Loss`, `SpotSeconds`, `Bookings`, `Stays.RecordedStay`) is stated for runs whose departure times
  fit: `Timing.StaysFit`, the duration plus each created vehicle's parking time is at most 2^32. The
  menu's bounds guarantee it (`Timing.ParkingTimesFitStays`).
* The pace of arrivals is stated for configurations whose arrival times fit
  (`Configuration.ArrivalTimesFit`); `Arrivals.NextArrivalIsLaterIffNoWrap` and
  `Arrivals.ArrivalFollowsAtOnceIff` say what happens otherwise.
* Everything else, among it the agreement of the four views, the order of the queue, the bound on
  the wait, the counters, the snapshots, locking and stopping, holds for every validated
  configuration.

The statistic called average wait time is not one: whoever parks from the queue is booked with a
wait of 1 (server/simulation.c:164). `Reports.AverageWaitIsOne` says what is reported instead.

## Model

| member | source | states |
|---|---|---|
| Configuration.MenuCapsPreventWrap | client/menu.c:95-113 | with every configuration a user can enter in the menu, departure and arrival times fit in 32 bits |
| Configuration.ValidationInNumbers | common/utils.c:74-105 | the configurations accepted, in numbers |
| Configuration.RandomRange | common/utils.c:24-29 | a draw lies between the two bounds |
| Configuration.RandomRangeIsRemainder | common/utils.c:24-29 | above the lower bound it is the remainder of the draw by the size of the range |
| Configuration.RandomRangeOnto | common/utils.c:24-29 | every value of the range can be drawn if and only if the range is no wider than what rand returns |
| Vehicles.Vehicle.constructor | server/vehicle.c:5-20 | a new vehicle waits, has no spot and no departure time |
| Vehicles.Vehicle.Park | server/vehicle.c:28-36 | the whole new record; the departure time is reduced modulo 2^32 |
| Vehicles.Vehicle.Wait | server/vehicle.c:38-45 | the whole new record |
| Vehicles.Vehicle.Leave | server/vehicle.c:47-54 | the spot is given up, both times are kept |
| Vehicles.Vehicle.ShouldDepart | server/vehicle.c:56-67 | true exactly for parked vehicles whose departure time has come |
| Words.WrapIsCongruent | server/vehicle.c:35 | an unsigned sum differs from the true one by a multiple of the modulus |
| Vehicles.ParkedStaysIffNoWrap | server/vehicle.c:28-67 | a vehicle just parked is not due at once if and only if its departure time fits in 32 bits |
| Queues.WaitingQueue.constructor | server/parking.c:6-15 | the queue is empty |
| Queues.WaitingQueue.Enqueue | server/parking.c:31-54 | the vehicle is appended and the linked structure stays valid |
| Queues.WaitingQueue.Dequeue | server/parking.c:56-73 | the oldest vehicle is removed and returned; null exactly on the empty queue |
| Queues.WaitingQueue.ChainFrom | server/parking.c:31-73 | from any node, k links lead to the k-th next node and after the last one to null |
| Queues.WaitingQueue.Acyclic | server/parking.c:31-73 | no node occurs twice in the chain |
| Parkings.Parking.Create | server/parking.c:76-127 | null exactly for a number of spots out of range; otherwise all spots free and nobody waiting |
| Parkings.Parking.FindFree | server/parking.c:157-163 | the lowest free spot, or -1 if and only if there is none |
| Parkings.FirstFree | server/parking.c:157-163 | the spot found is free and every spot before it is taken |
| Parkings.Parking.TryPark | server/parking.c:150-184 | the whole new lot and vehicle and the result, for each of the three outcomes |
| Parkings.TryParkMeans | server/parking.c:157-183 | the vehicle parks if and only if a spot is free, and then in the lowest one; otherwise it joins the end of the queue or is turned away, as the mode says; nothing else changes |
| Parkings.Parking.Depart | server/parking.c:186-207 | frees the spot the vehicle names, whoever is recorded there; refused for a spot out of range |
| Parkings.DepartMeans | server/parking.c:193-206 | the named spot becomes free, every other one stays, the vehicle leaves; with no such spot nothing changes |
| Parkings.Parking.ProcessQueue | server/parking.c:209-249 | terminates and does the rounds of draining until nobody waits or no spot is free |
| Parkings.Parking.GetFreeSpots | server/parking.c:251-261 | the difference of the two counters, modulo 2^32 |
| Stays.FreeSpotsAreCounted | server/parking.c:251-261 | at every boundary that difference is the number of free spots |
| Parkings.Parking.GetWaitingCount | server/parking.c:263-273 | the length of the queue |
| Draining.DrainsInFull | server/parking.c:219-244 | the number parked is the smaller of those waiting and the spots free; the j-th oldest gets the j-th lowest free spot, all other spots and vehicles stay as they were |
| Stays.TicksDrainInFull | server/simulation.c:160-166 | so it is in the third phase of every tick of every run |
| Statistics.Statistics.constructor | server/statistics.c:5-24 | all counters are zero |
| Statistics.Statistics.AddArrival | server/statistics.c:38-47 | every counter after an arrival |
| Statistics.Statistics.AddParked | server/statistics.c:49-66 | every counter after a parking, with the saturating decrement and the wait booked only if positive |
| Statistics.Statistics.AddDeparture | server/statistics.c:68-82 | every counter after a departure |
| Statistics.Statistics.AddLeftNoSpace | server/statistics.c:84-95 | every counter after a refusal |
| Simulations.Simulation.Create | server/simulation.c:9-72 | null exactly for configurations that fail one of the five tests of the validation; otherwise the initial state |
| Simulations.Simulation.ArrivalPhase | server/simulation.c:115-149 | the whole state after the first phase |
| Arrivals.ArriveDraws | server/simulation.c:115-149 | an arrival happens exactly if its time has come and fewer than 1000 have arrived; it arrives now with the parking time drawn, and the next is due after the interval drawn |
| Stays.ArrivalTakesLowest | server/simulation.c:133-143 | an arrival parks if and only if a spot is free, in the lowest one; otherwise it is the last in the queue or is turned away |
| Simulations.Simulation.DeparturePhase | server/simulation.c:151-158 | the whole state after the scan over all vehicles |
| Simulations.Simulation.RefillPhase | server/simulation.c:160-166 | the whole state after draining and booking |
| Simulations.Simulation.OverwriteCounters | server/simulation.c:168-170 | the whole state after the overwrite |
| Simulations.Simulation.TickBody | server/simulation.c:113-174 | one execution of the loop body is one tick of the specification, and only this simulation's objects change |
| Simulations.Simulation.Start | server/simulation.c:188-212 | refused if running; otherwise running with the clock at zero |
| Simulations.Simulation.ThreadFunc | server/simulation.c:104-186 | the loop does as many ticks as its test allows, never more than the duration, and clears running |
| Simulations.Simulation.GetState | server/simulation.c:239-256 | the state snapshot of the current value, whose fields History.SnapshotsTell spells out |
| Simulations.Simulation.GetStatistics | server/simulation.c:258-296 | the statistics snapshot of the current value, whose fields History.SnapshotsTell spells out |
| Runs.CompleteRun | server/simulation.c:104-186 | after the thread has ended, at the duration or earlier, the object is at a tick boundary satisfying all the invariants, and its snapshots tell what has happened |
| Runs.Observe | server/simulation.c:239-296 | the snapshots then taken of the object are consistent |
| Invariants.TakeSpotMatches | server/parking.c:164-171 | giving the lowest free spot to a vehicle keeps the four views of the lot in agreement |
| Invariants.ArriveKeeps | server/simulation.c:115-149 | the first phase keeps the invariants, although an arrival never looks at the queue |
| Invariants.DepartFromKeeps | server/simulation.c:151-158 | so does the departure scan, although a departure never checks who is in the spot |
| Evolution.DepartFromExactly | server/simulation.c:151-158 | the scan makes leave exactly the parked vehicles whose time has come and leaves every other record as it was |
| Invariants.DrainKeeps | server/parking.c:209-249 | so does draining; afterwards no spot is free while anybody waits |
| Invariants.TickKeeps | server/simulation.c:112-177 | a tick leads from a boundary to a boundary, one tick later |
| Invariants.RunKeeps | server/simulation.c:112-177 | in every state of every run of every validated configuration: occupied_count is the number of taken spots and of parked vehicles, a spot holds a vehicle exactly if the vehicle is parked and names it, the queue is the last stretch of the vehicle array, and nobody waits beside a free spot |
| Timing.ParkingTimesFitStays | client/menu.c:105-113 | a configuration whose longest parking time fits has only runs whose departure times fit |
| Timing.RunTimed | server/simulation.c:112-177 | in every run whose departure times fit, at every boundary parked vehicles depart at that tick or later, after a park tick before it, and vehicles that left did so in time |
| Evolution.TickSucceeds | server/simulation.c:113-174 | what a tick does to every record, wrapped or not: who waits may park, who is parked leaves if and only if its time has come, who has left stays away, and at most one newcomer follows |
| Evolution.RunPersists | server/simulation.c:112-177 | over any number of ticks: who is parked is there exactly up to its departure time, who stops waiting has parked in between, newcomers come after |
| Schedule.RunSchedules | server/simulation.c:112-177 | in every run whose departure times fit, every vehicle parked at the least tick from its arrival on at which fewer than all spots were held by earlier vehicles; who still waits has had no such tick |
| Servers.TickLoopRefinesServers | server/simulation.c:112-177 | in the waiting mode, in every run whose departure times fit, a vehicle has parked exactly if the first-come-first-served recursion starts it before now, and it parked at that very tick |
| Servers.StartsInOrder | server/simulation.c:112-177 | the reference serves customers in the order of arrival |
| Loss.RunLoses | server/parking.c:157-183 | in the other mode, in every run whose departure times fit, a vehicle is refused if and only if all spots are held by earlier vehicles departing at its arrival or later; otherwise it parks at once; the queue is always empty |
| Stays.OnePlaceEach | server/parking.c:150-249 | every vehicle is in exactly one spot, at exactly one queue position, or gone |
| Stays.NoOvertaking | server/parking.c:157-178 | at every boundary of every run the queue is the newest vehicles in order of arrival and everybody before them has been dealt with |
| Stays.StayInRun | server/simulation.c:133-161 | in every run of every validated configuration a vehicle that parks at tick n is in the lot at exactly the boundaries of its stay: its parking time if the sum fits in 32 bits, and otherwise none after parking on arrival and one after parking from the queue |
| Stays.StayIsExactIffNoWrap | server/vehicle.c:28-36 | so, watched for two boundaries or more, the stay lasts the parking time if and only if the departure time fits in 32 bits |
| Stays.EveryStayBegins | server/simulation.c:115-161 | whoever is found in the lot has parked at some earlier tick, on arrival or from the queue |
| Stays.RecordedStay | server/vehicle.c:28-54 | in a run whose departure times fit the stay can be read off the record, even after the vehicle has left |
| Stays.ValidationDoesNotPreventWrap | common/utils.c:94-102 | a validated configuration in whose run a vehicle leaves in the tick it parked, with its whole time booked |
| Waiting.WaitIsBounded | server/simulation.c:151-166 | the vehicle at queue position k parks within (k / spots + 1) longest parking times, in any run lasting that long, wrapped or not |
| SpotSeconds.SpotSecondsAreConserved | server/simulation.c:151-172 | in every run whose departure times fit, the occupied spots summed over the ticks are the total parking time plus the time so far of those parked; hence at most spots times ticks |
| Ledger.RunBalances | server/statistics.c:38-95 | at every boundary of every run: arrivals = vehicles = parked + refused + waiting, parked = departed + occupied, total wait = number waited = number admitted through the queue |
| Ledger.SafeguardsNeverAct | server/statistics.c:57-93 | at every point of every run the next tick is the same as one whose decrements are not guarded and whose counters are not overwritten |
| Ledger.OverwriteChangesNothing | server/simulation.c:168-170 | when the books balance the two overwritten counters keep their values |
| Arrivals.RunSpaces | server/simulation.c:115-148 | consecutive arrivals are one permitted interval apart in every state of every run |
| Arrivals.RunFollowsDraws | server/simulation.c:115-148 | in every run every vehicle arrives when the draws make it due, or in the first tick after its predecessor's, with the parking time drawn in that tick; nobody else arrives, and there are at most 1000 |
| Arrivals.ArrivesOnSchedule | server/simulation.c:115-116 | below the cap of vehicles an arrival happens at exactly its scheduled tick, although the test is only for at least |
| Arrivals.ArrivalRate | server/simulation.c:145-148 | the next arrival lies between (vehicles + 1) shortest and longest intervals, and the vehicles so far took at least their shortest intervals |
| Arrivals.NextArrivalIsLaterIffNoWrap | server/simulation.c:145-148 | the next arrival lies in the future if and only if its time fits in 32 bits |
| Arrivals.ArrivalFollowsAtOnceIff | server/simulation.c:115-148 | after a tick with an arrival another vehicle arrives in the very next one if and only if the cap is not reached and the interval drawn is 1 or its sum does not fit |
| Reports.SnapshotsAreConsistent | server/simulation.c:239-296 | at every boundary of every run: occupied at most total, elapsed + remaining = duration, the counters add up, nobody is refused in the waiting mode, the average parking time lies between the configured bounds, the occupancy rate is a percentage |
| History.RunCounts | server/statistics.c:68-95 | at every boundary of every run the counters of refusals and departures are the numbers of vehicles turned away and of vehicles whose time had come, and the total parking time is theirs |
| History.SnapshotsTell | server/simulation.c:239-296 | at every boundary of every run: spots, parked and waiting vehicles, elapsed and remaining time; arrivals, refusals, departures, those parked so far, parked now and waiting now; the averages and the occupancy, each times its divisor |
| Bookings.AverageParkingTime | server/simulation.c:275-280 | in every run whose departure times fit the reported average is that of the parking times of exactly the departed vehicles |
| Reports.AverageWaitIsOne | server/simulation.c:282-287 | in every run the reported average wait is 1 if anybody parked from the queue and 0 otherwise, however long anybody waited |
| Bookings.LeftNoSpaceIsRefused | server/simulation.c:267 | in every run whose departure times fit the reported refusals are the number of records of refused vehicles |
| Locking.StepKeeps | server/simulation.c:104-296 | every step of the thread, the starter, a stopper or a reader keeps the invariant that ties locks, data, readers and the running flag together |
| Locking.RunsKeep | server/simulation.c:104-296 | every state of every interleaving, with callers coming at any time, satisfies it |
| Interleavings.StatesAreWhole | server/simulation.c:244-253 | a returned state tells, in all its fields, what has happened up to one tick boundary between the call and now, and is consistent |
| Interleavings.StatisticsAreWhole | server/simulation.c:263-293 | so are returned statistics |
| Interleavings.StopStops | server/simulation.c:223-236 | once a caller that found the simulation started has got past its test, and so when it returns, the simulation is not running and never will be again, whatever it was doing, and at most one more tick body begins |
| Interleavings.AtMostOneMoreBody | server/simulation.c:112-113 | once stopped, the flag is never set again and at most one more tick body begins |
| Interleavings.OneMoreBodyCanBegin | server/simulation.c:112-113 | for every configuration there is a run in which one more does begin |
| Interleavings.UnstoppedRunsItsDuration | server/simulation.c:112-186 | a thread that nobody stopped has done all ticks of the duration |
| Interleavings.JoinedAtMostOnce | server/simulation.c:214-237 | the thread is joined at most once, by at most one caller; when that caller returns it has finished and is no longer marked as created |
| Interleavings.JoinedLeavesABoundary | server/simulation.c:214-237 | after a stop that joined no tick is half done |
| Interleavings.ClearerJoins | server/simulation.c:223-236 | the caller that cleared the flag never returns without joining |
| Interleavings.FinishedAloneIsNeverJoined | server/simulation.c:179-181 | a thread that ended by itself is never joined by any later stop |
| Interleavings.NoDeadlock | server/simulation.c:214-237 | in every reachable state somebody can step until everybody has returned; who joins does not own the simulation's lock |
| Progress.StepDescends | server/simulation.c:104-296 | every step brings the end nearer in a well-founded order |
| Progress.EveryRunEnds | server/simulation.c:104-296 | a run without new calls has at most as many steps as a number read off its first state |
| Progress.EverybodyReturns | server/simulation.c:214-237 | where such a run cannot go on, the thread has finished and all callers have returned |
| Progress.EverybodyCanReturn | server/simulation.c:214-237 | every reachable state can be continued until all callers have returned and the thread has finished |
| Layout.BigEndianIn | common/protocol.c:9-10 | a word is sent with its most significant byte first |
| Layout.Get32IsNumber | common/protocol.c:29-30 | and read so |
| Codec.Put32OfGet32 | common/protocol.c:29-30 | converting four bytes to a word and back gives the same bytes |
| Layout.HeaderLayout | common/protocol.h:8-23 | the eight bytes of every header |
| Layout.ConfigLayout | common/protocol.c:66-79 | every field of a configuration by its offset |
| Layout.StateLayout | common/protocol.c:110-122 | every field of a state by its offset |
| Layout.StatisticsLayout | common/protocol.c:152-169 | every field of statistics by its offset, the floats as they are |
| Layout.ErrorLayout | common/protocol.c:199-213 | the code, the first 255 characters of the text, and zeros |
| Codec.AnnouncedIsTaken | common/protocol.c:75-213 | the length a header announces is the number of bytes the receiver of its type takes |
| Codec.FrameRoundTrip | common/protocol.c:7-229 | a frame is read back as it was written and the following bytes are left alone; an error's text is cut at 255 characters |
| Codec.FramesRoundTrip | common/protocol.c:7-229 | so is any list of frames written one after the other |
| Codec.TextRoundTrip | common/protocol.c:202-226 | the text of an error arrives up to its 255th character |
| Codec.ReadSpellsTheBytes | common/protocol.c:19-229 | what was read re-encodes to the bytes received if and only if the announced length was right and an error's text was zero-padded |
| Sockets.Socket.RecvMessageHeader | common/protocol.c:19-33 | succeeds if and only if eight bytes come before the end of the stream |
| Sockets.Socket.SendSimulationConfig | common/protocol.c:59-80 | exactly the frame of the configuration is sent |
| Sockets.Socket.RecvSimulationConfig | common/protocol.c:82-102 | on success the structure is the one whose encoding came; fails if and only if the stream is too short |
| Sockets.Socket.SendParkingState | common/protocol.c:104-123 | exactly the frame of the state is sent |
| Sockets.Socket.RecvParkingState | common/protocol.c:125-144 | on success the structure is the one whose encoding came |
| Sockets.Socket.SendStatistics | common/protocol.c:146-170 | exactly the frame of the statistics is sent |
| Sockets.Socket.RecvStatistics | common/protocol.c:172-196 | on success the structure is the one whose encoding came |
| Sockets.Socket.SendError | common/protocol.c:198-214 | exactly the frame of the error is sent |
| Sockets.Socket.RecvError | common/protocol.c:216-229 | the code and the text up to its first zero |
| Network.ReplyIsAFrame | client/network.c:102-115 | on a frame boundary the client takes exactly one frame: the wanted one or an error |
| AnyPeer.EveryReplyIsTaken | client/network.c:57-141 | what each kind of reply reading makes of any stream at all, by type numbers and sizes, which fields it takes from where, and what it leaves |
| Network.NetworkCreateSimulation | client/network.c:45-75 | 0 exactly if the reply is the confirmation; what is sent and what is left of the stream |
| Network.NetworkJoinSimulation | client/network.c:77-91 | succeeds without reading anything |
| Network.NetworkGetState | client/network.c:93-116 | 0 exactly if the reply is a whole state, and then that state; what is left of the stream in every case |
| Network.NetworkGetStatistics | client/network.c:118-141 | the same for statistics |
| Network.NetworkSendDisconnect | client/network.c:143-149 | exactly the farewell is sent |
| Network.PlaySession | client/client.c:81-214 | all bytes sent and all answers obtained in a session |
| Handlers.ClientHandlerThread | server/client_handler.c:26-91 | whatever arrives, the bytes sent are whole frames, one answer for each header before the farewell or the end |
| AnyPeer.EveryHeaderIsAnswered | server/client_handler.c:39-83 | on any stream, exactly the headers before the first farewell or the end are answered, each by its type number alone, unknown types with error 6 |
| Handlers.Server.CreateSimulation | server/server.c:138-166 | a simulation already there is gone even if the new one is refused; otherwise a new one runs from its initial state |
| Handlers.Server.Accept | server/server.c:194-234 | for every first message, what is sent, whether a handler takes over and with what stream, and what becomes of the simulation |
| AnyPeer.EveryOpeningIsAnswered | server/server.c:194-234 | for any first bytes at all, everything the server sends on the connection, by type numbers and error codes |
| Handlers.Server.ServeConnection | server/server.c:194-252 | all bytes the server sends on a connection |
| Conversations.RequestsAreAnswered | server/client_handler.c:39-83 | a list of requests is answered one by one, every header being read at a frame boundary |
| Conversations.ExchangesAreAligned | client/network.c:93-141 | reading by type finds the frames of a list of answers and errors one by one |
| Conversations.OneConversation | client/network.c:45-149 | for every session there is exactly one pair of streams on which both programs agree, and which one |
| Conversations.ClientIsAligned | client/network.c:45-141 | on those streams every header the client reads is at a frame boundary or at the end of the stream, no unexpected type and no torn frame is ever met |
| Conversations.ServerIsAligned | server/server.c:194-234 | the opening is always a complete known message, and every header the handler reads is at a frame boundary |
| Conversations.AnswersAreTheSnapshots | server/client_handler.c:48-69 | an accepted client receives, question by question, exactly the snapshots the server took |
| Conversations.RefusedJoin | server/server.c:220-227 | a refused join answers the first question with its error, and every later one finds the stream ended |
| EndToEnd.ClientsSeeWholeTicks | server/client_handler.c:48-69 | what an accepted client decodes as an answer tells, in all its fields, what has happened up to one tick boundary no older than the handler's call, however the ticks and other callers interleaved |

## Left out

- Simulations.Simulation.GetStatistics: single-precision rounding is not modelled; the quotients are real numbers, and on the wire a float is four bytes that travel as they are, whatever they represent.
- Parkings.Parking.ProcessQueue: has a ghost parameter, the simulation's vehicles, that the program does not have; it names the owner of each queue entry.
- Parkings.Parking.TryPark: requires a positive vehicle id, since entries of the lot are named by id, and fewer than 2^32 - 1 queued vehicles; the simulation hands out ids from 1 and never has more than 1000 vehicles.
- Parkings.Parking.constructor: requires the number of spots to be in range; Create has the refusal.
- Simulations.Simulation.ThreadFunc: the number of loop tests that find the flag set is a parameter; Locking says what it can be.
- Locking.ThreadStep: within a phase of the body the thread may take the inner locks in any order and before the phase has its effect, at most as often as the program does; reads of the flag and the clock outside the lock are single steps, although the language calls them a data race.
- Network.PlaySession: the menu loop of the client appears only as the order of its network calls.
- Handlers.Server.ServeConnection: the snapshots a handler is given are a parameter, so that the conversation theorems hold for any; EndToEnd says what follows when they are what the snapshot functions return.
- Sockets.Socket: a channel delivers all bytes in order until it is closed; partial sends, failing sends, resets, signals, bind, listen and accept are not modelled, and neither are the return codes of sends that cannot fail here.
- Codec.TextField: the wording of the error texts is a parameter; a null text, which no caller passes, is not modelled.
- Restarting a finished simulation, a handler that outlives the simulation it was given, and the server's list of threads: one start per simulation is assumed, as server_create_simulation does.
- Failing allocation and thread creation, and everything freed at the end.
- The wall clock and the pause between ticks: time is the number of ticks. What rand returns is a parameter.
- Null arguments of the library functions: references are never null here.
- Logging, the menu and the display, except for the menu's numeric bounds.
- statistics_update_averages and statistics_calculate_occupancy, which are empty.
