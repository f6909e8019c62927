# cpms reservations: a verified model

cpms is a charge point management system: it reserves the EVSEs of a charging
station for RFID tags, over OCPP 1.6, and remembers what it must not forget in a
state file. This project models the life of a reservation and everything it rests
on, and proves what the program promises about it over whole runs.

There are two kinds of module.

**Sequential code.** Code that changes objects step by step is a class here, with
the same fields and the same branches, proved against functions on values.

| file | models |
|---|---|
| `common.dfy`, `core.dfy`, `contents.dfy`, `durable.dfy` | the values, what each critical section of core does to them, what is written and what a restart makes of it |
| `effects.dfy` | what those sections and the normal form amount to, field by field |
| `reservations.dfy` | the reservation table with its records and timers (`internal/core/reservations.go`) |
| `status.dfy`, `chargepoints.dfy` | charge points, their EVSE statuses and their transactions (`internal/core/service.go`, `transactions.go`) |
| `service.dfy`, `listing.dfy` | the operations of core as a whole: a critical section, then a write (`internal/core/persist.go`) |
| `state.dfy`, `stored.dfy` | the state in memory, the state file, the store, and core's write through it (`internal/state`) |
| `clock.dfy` | the manual clock and its timers (`internal/clocktest/clock.go`) |
| `bus.dfy` | the event bus (`internal/core/event.go`) |
| `station.dfy` | the station's side of ReserveNow and CancelReservation (`internal/simulator/handlers.go`), as a function |

**Concurrent code.** Threads, processes and messages are machines that take one
small step at a time; a theorem about a machine holds in every interleaving.

| file | steps |
|---|---|
| `lockfile.dfy` | the system calls of any number of competing `LockPath` and `Release` calls |
| `conn.dfy`, `calls.dfy` | the callers, the reader, the handler loop and the writer of one OCPP-J connection |
| `persistence.dfy`, `reissue.dfy`, `fates.dfy` | core's operations racing each other, their writes, failures, crashes and restarts |
| `control.dfy`, `conversation.dfy`, `displacement.dfy`, `outcomes.dfy`, `closing.dfy` | `Reserve`, its background cancel, `Cancel` and `Close`, with core, timers, sessions and the station at the other end of a FIFO connection |
| `bus.dfy` (second half) | publishers, subscribers and cancel functions under the bus's lock |

Both kinds use the same functions for core's critical sections (`core.dfy`): the
class `CoreService.Service` is proved to do to its fields what those functions say,
and the machines interleave them. What those functions are is said a second time,
in terms of the fields before and after and without naming them, by the lemmas whose
names end in `Is` and by `outcomes.dfy` and `fates.dfy`.

`dafny verify dfyconfig.toml` checks everything.

## Findings

- **A transaction id can be handed out twice.** The comment on `NextTransactionID`
  says ids are never reused, including across restarts; the code hands the id out
  even if its write failed (`internal/core/transactions.go:36-38`).
  `TransactionIdCanReappear` is such a run. `HandedOutExactlyWhen` and
  `ReissuedExactlyWhen` say exactly when a crash can lead to it: no write of that run
  whose snapshot followed the allocation has committed, and no transaction on file
  bears a numeric id that is as large. The second half matters: a session that is on
  file protects its id although the counter never was (`StoredIdsAreNotReissued`,
  `RestartPassesRunningIds`). Only writes of the id's own run count: once the id has
  been forgotten by a restart, a later run's writes no longer speak about it.
- **`Store.Update` adopts what its function installs.** `Get` returns a deep copy
  and `Update` works on one, but a list or registration that the function assigns
  becomes the store's own (`internal/state/store.go:107-131`). If its caller keeps
  it and writes into it later, memory differs from the file: `ARetainedListSpoils`
  is that run. The exact condition: memory stays equal to what a reopen reads,
  whatever the holders of `held` write, if and only if they hold none of the
  store's parts, which are its registration, that registration's lists and its own
  lists, empty ones apart (`HarmlessWrites` one way, `Spoil` the other). The store's
  parts after an update are the parts of what the function left (`FinishUpdate`), so
  the condition can be read off before the call. The struct itself may be kept: the
  store takes a copy (`ARetainedStructIsHarmless`). core's `persist` meets the
  condition: all it installs it has just made (`Stored.WriteDown`).
- **The simulator overwrites a held connector.** Its comment says a connector
  already held cannot be reserved; the code checks only for sessions and faults
  (`internal/simulator/handlers.go:99-113`). `OverwritesExactlyWhen`: a ReserveNow
  takes a connector away from the reservation it is held for if and only if no
  scenario interferes, no transaction is running on it and its status is none of
  Charging, Preparing, Faulted and Unavailable. `ALostHoldIsOverwritten` is a whole
  run in which it happens to a reservation that has not expired: its Reserve call
  timed out and the background cancel failed. The model follows the code, so that
  nothing else is overwritten is the doing of core and control alone: what a
  ReserveNow finds held has expired, was ended by a session, or had its cancel lost
  (`ReserveNowMeetsNoLiveHold`).
- The package comment of `internal/state` names the control socket as the guard
  against a second instance; the guard modelled is the lock of
  `internal/state/lock_unix.go`, which `internal/cli/run.go:69` takes.

## Model

| member | source | states |
|---|---|---|
| Conversation.HeldIsRecorded | internal/control/control.go:122-264 | over every run on one connection, an unexpired reservation the station holds has a record in core, unless its own background cancel failed or timed out or a session ended it |
| Outcomes.ExcusesAreReal | internal/control/control.go:198-232 | the ids that a station may hold without a record, expired ones apart, are those whose own background cancel failed or timed out and those that were active until a session ended them |
| Conversation.NoSecondReserveNow | internal/core/reservations.go:91-101 | a ReserveNow goes out only while no other reservation in any status is on that EVSE |
| Displacement.ReserveNowMeetsNoLiveHold | internal/core/reservations.go:97-101 | over every run, when the station comes to a ReserveNow, what it still holds that connector for is another id that has expired, was ended by a session, or had its background cancel fail or time out |
| Displacement.ALostHoldIsOverwritten | internal/simulator/handlers.go:99-113 | a run in which an unexpired reservation whose cancel was lost is overwritten by a second one |
| Displacement.RunCleared | internal/control/control.go:149-164 | over every run, of two ReserveNow requests under way for a connector the first has no record any more, and neither has another id the station holds that connector for |
| Conversation.AcceptedIsStillPending | internal/control/control.go:184-195 | in every interleaving a reservation the station accepted is still pending when Reserve activates it: the branch where it has vanished is never taken |
| Conversation.EveryOpenRecordIsCovered | internal/control/control.go:168-182 | the in-flight counter counts the Reserve calls and background cancels, and every pending or cancelling record belongs to exactly one of them |
| Conversation.SpawnNeverRacesClose | internal/control/control.go:176 | the counter rises only before Close or while it is above zero, so adding to it cannot race Close's wait |
| Conversation.CloseIsFinal | internal/control/control.go:98-108 | once Close has returned no Reserve and no background cancel runs or can start, and every reservation left is active |
| Closing.CloseWaitsFinitely | internal/control/control.go:98-108 | once Close has begun, the Reserve calls in flight and their background cancels, those still to be started included, take at most eleven steps per unit of the counter, whatever the station, the connection and the timers do |
| Closing.SomebodyCanGoOn | internal/control/control.go:98-108 | while the counter is not zero some Reserve call or background cancel can take a step that depends on nobody else (where it waits, it can time out), so Close does not wait for ever |
| Closing.CloseCanReturn | internal/control/control.go:103-108 | Close can return exactly when no Reserve call and no background cancel is left |
| Outcomes.AnsweredCancelEnds | internal/control/control.go:253-263 | over every run, once the station has answered a Cancel, accepting or refusing, that id has no record in core in any later state, and the step touches no other record |
| Outcomes.RecordsChangeOnlySo | internal/control/control.go:149-264 | over every run a record appears, turns active or cancelling, or goes only by the step whose kind says so, and then exactly so; every other step leaves it as it is |
| Outcomes.GoneForGood | internal/core/reservations.go:103-118 | an id that core has handed out and has no record of never gets one again |
| Outcomes.WrittenBeforeSent | internal/core/reservations.go:111-117 | over every run a ReserveNow goes out only after its own call has written the counter successfully, and it is for its id and the connector asked for |
| Outcomes.WireChangesOnlySo | internal/control/control.go:162-167 | requests travel in the order they are sent, and each send step sends exactly its own request |
| Outcomes.StationAnswers | internal/simulator/handlers.go:79-155 | over every run the answer to a request is kept for its own call, Accepted exactly if the connector can be reserved or if the id to cancel is held, and the connectors change exactly so |
| Station.ReserveNowHolds | internal/simulator/handlers.go:94-123 | an accepted ReserveNow makes that connector held for that id and changes nothing else; a refused one changes nothing |
| Station.ReserveNowAnswers | internal/simulator/handlers.go:85-123 | which answer a ReserveNow gets, in terms of the scenario, the connector, its session and its status |
| Station.OverwritesExactlyWhen | internal/simulator/handlers.go:85-113 | a connector held for another id loses that hold if and only if no scenario interferes and it is free of sessions and faults |
| Station.CancelReservationReleases | internal/simulator/handlers.go:126-155 | cancelling an id that at most one connector (not connector 0) holds releases that one and no other, and is refused exactly if none held it |
| Station.CancelReservationIs | internal/simulator/handlers.go:131-155 | a cancel makes one connector that holds the id available and is accepted exactly if there is one; everything else stays |
| Persistence.IdsAreNeverReused | internal/core/reservations.go:103-117 | across any runs and crashes, with any writes failing, no reservation id and no remote-start id is returned to a caller twice |
| Persistence.CoveredTransactionIdsAreNeverReused | internal/core/transactions.go:30-40 | a transaction id handed out again was of an earlier run, and no write of that run following its allocation had committed |
| Persistence.CoveredMeansOnFile | internal/core/persist.go:18-39 | during its run, an id is covered by a committed write if and only if the counter on file has passed it |
| Persistence.TransactionIdCanReappear | internal/core/transactions.go:36-38 | a run in which a failed write and a crash make transaction id 1 come back |
| Reissue.HandedOutExactlyWhen | internal/core/persist.go:116-134 | in every reachable state, a number can be handed out as a transaction id after a crash now if and only if the restart leaves the counter at or below it |
| Reissue.ReissuedExactlyWhen | internal/core/transactions.go:30-40 | an id of the current run can be handed out again after a crash now if and only if no write covering it has committed and every numeric id on file is below it |
| Reissue.StoredIdsAreNotReissued | internal/core/persist.go:130-133 | an id that a stored transaction bears cannot come back after a crash, even if the counter was never written |
| Reissue.FromNowOn | internal/core/persist.go:116-134 | after a restart no id below the counter it found is handed out, whatever writes, failures and further crashes follow |
| Reissue.ReissueRun | internal/core/transactions.go:30-34 | a restart and then allocations alone hand out any number at or above the counter it found |
| Persistence.RacingWritesLoseNothing | internal/core/persist.go:10-39 | when no operation is under way and every failed write has been followed by one that committed, or by a restart, the file has exactly one line for each active reservation and each running transaction in memory, equal to it in every field that is stored |
| Persistence.OneReservationPerEvse | internal/core/reservations.go:71-118 | in every reachable state, across restarts, an EVSE has at most one reservation in any status and a timer is armed exactly for the active ones |
| Persistence.EveryReservationIsAccountedFor | internal/core/reservations.go:152-196 | within a run an id yields at most one created and one ended event; every id that entered is pending, active, reported ended or dropped because its write failed; the cancelling ones are those reported ended that still occupy their EVSE |
| Persistence.QuietSnapshot | internal/core/reservations.go:165-168 | orphaning a record and ending a cancelling one do not change what persist would write |
| Fates.EveryBegunIdHasItsFate | internal/core/reservations.go:103-118 | for as long as the process lives an id that BeginReservation took is with it and pending, or has been returned with the counter on file past it, or its record is gone, and never two of these |
| Fates.EveryRemoteStartIdHasItsFate | internal/core/transactions.go:48-58 | an id that NextRemoteStartID took is on its way, has been returned, or its own write has failed |
| Fates.FatesHaveTheirReasons | internal/core/reservations.go:111-117 | an id is returned only once its own write has committed, and a record is removed only because its own write failed |
| Fates.EventsAreTold | internal/core/reservations.go:125-196 | over every run a reservation is reported created exactly when it turns active, and ended exactly when it stops being pending or active, unless its counter could not be written |
| Fates.RecordChangeIs | internal/core/reservations.go:125-196 | activating and orphaning change the status and the timer of one record, ending and expiring remove it, and nothing else is touched |
| Fates.SessionChangeIs | internal/core/transactions.go:79-171 | a session that starts is there and running, one that stops is there with what it stopped with, and no other transaction is touched |
| Durable.RestartRestoresReservations | internal/core/persist.go:137-165 | after a restart exactly the active, unexpired, still configured reservations are back, each with its timer armed and every field but the connector as it was |
| Durable.RestartDrops | internal/core/persist.go:137-153 | the file is written back exactly if some active reservation has expired or lost its EVSE |
| Durable.RestartRestoresTransactions | internal/core/persist.go:123-129 | exactly the running transactions come back, running, each with the id, EVSE, connector, tag, meter reading, instant and reservation it had in memory |
| Durable.RestartKeepsOrder | internal/core/persist.go:74-86 | two running transactions keep the order in which they began |
| Durable.RestartWritesTheSame | internal/core/persist.go:100-112 | persisting again after a restart writes the transactions that were read, and the reservations too if none was dropped |
| Durable.RestartPassesRunningIds | internal/core/persist.go:130-133 | if a running transaction bears the decimal form of n, the transaction counter is above n after a restart |
| Durable.LoadCounters | internal/core/persist.go:118-121 | every counter is above every restored id and at least what the file said |
| Durable.CountersAfterLoad | internal/core/persist.go:116-136 | the counters for reservations and remote starts are those on file, at least one; the one for transactions is the least number not below the one on file and above every numeric id there |
| Durable.RestartKeepsCounters | internal/core/persist.go:118-121 | after a restart from what memory last wrote, the counters for reservations and remote starts stand where they stood and the one for transactions no lower |
| Durable.LoadValid | internal/core/persist.go:116-167 | a core loaded from a file that core wrote satisfies every invariant of memory, under any configuration |
| Durable.WrittenFileOk | internal/core/persist.go:51-87 | what persist writes is well-formed: distinct ids and EVSEs, ids in order and below their counter, normal form |
| Durable.OverlayKeepsRegistration | internal/core/persist.go:31-38 | core's edit of the stored state leaves the OCPI registration alone |
| Common.AtoiOfItoa | internal/core/persist.go:131 | an id written in decimal reads back as the same number |
| Common.EqualFoldIs | internal/core/transactions.go:135-137 | two tags compare equal exactly if they are the same but for the case of (ASCII) letters |
| Core.SessionEndsOneActive | internal/core/transactions.go:97-106 | a starting session ends at most one reservation, an active one of its charge point, consumed exactly if the id or the folded tag matches and failed otherwise |
| Core.SessionClearsItsEvse | internal/core/transactions.go:127-150 | an active reservation is left on the session's EVSE if and only if there was one and the station named an active one on another EVSE |
| Core.ConnectorsTellEvsesApart | internal/core/reservations.go:270-276 | in a valid configuration two EVSEs never share a connector |
| Core.ConfiguredUid | internal/core/service.go:284-288 | a configured connector of the configured charge point stands for its configured EVSE |
| Core.MadeUpUid | internal/core/service.go:281-290 | any other charge point or connector gets the charge point, a dash and the connector in decimal |
| Effects.SessionOnConfiguredEvse | internal/core/transactions.go:79-107 | a session on a configured connector is recorded on the configured EVSE, ends at most one reservation, one there or the one the station named, and leaves an active one there exactly if there was one and the station named one elsewhere |
| Effects.StartSessionIs | internal/core/transactions.go:79-107 | a starting session is recorded, running, with what the station reported and under the next number, and nothing else changes but the reservation it ends |
| Effects.StopSessionIs | internal/core/transactions.go:154-171 | a stopped session keeps what it began with and gets its end, and nothing else changes |
| Effects.BeginReservationIs | internal/core/reservations.go:91-109 | it fails exactly if the EVSE is not configured or has a reservation in any status, and changes nothing then; otherwise the record has everything the caller asked for, under the next id |
| Effects.ActivateIs | internal/core/reservations.go:125-137 | the record is active with its timer armed and otherwise as it was |
| Effects.OrphanIs | internal/core/reservations.go:179-189 | the record is cancelling with no timer and otherwise as it was |
| Effects.ExpiryAppliesIs | internal/core/reservations.go:234-240 | a callback acts exactly if the reservation is active with the expiry the timer was set for |
| Effects.ElapsedIs | internal/core/reservations.go:221-246 | time removes exactly the active reservations whose expiry has come |
| Core.BeginKeeps | internal/core/reservations.go:91-109 | beginning a reservation keeps the invariants of memory |
| Core.StatusKeeps | internal/core/reservations.go:125-135 | activating and orphaning keep them |
| Core.StartSessionKeeps | internal/core/transactions.go:79-110 | starting a session keeps them |
| Core.StopSessionKeeps | internal/core/transactions.go:154-171 | stopping one keeps them |
| Core.SweptAll | internal/core/reservations.go:221-246 | removing lapsed reservations until none is left gives exactly what time leaves of the table |
| Reservations.Table.BeginSection | internal/core/reservations.go:91-109 | the record is added under the next id exactly if the EVSE is configured and free |
| Reservations.Table.ActivateSection | internal/core/reservations.go:125-137 | a pending record becomes active and its timer is armed, anything else is left alone |
| Reservations.Table.OrphanSection | internal/core/reservations.go:179-189 | a pending record becomes cancelling, anything else is left alone |
| Reservations.Table.EndSection | internal/core/reservations.go:152-161 | the record goes, in whatever status, and its timer is stopped |
| Reservations.Table.ExpireSection | internal/core/reservations.go:234-246 | a timer that has fired removes its record if that is still active with the same expiry, and otherwise changes nothing |
| Reservations.Table.ActiveReservation | internal/core/reservations.go:199-208 | it finds a reservation exactly if an active one is on the EVSE, and that one |
| Reservations.Table.Find | internal/core/transactions.go:133-149 | the loops over the table find an active reservation on the EVSE (for the tag) exactly if there is one |
| Reservations.Table.FindEnded | internal/core/transactions.go:127-150 | the lookups agree with the specification of what a session ends, whatever order the map is visited in |
| Reservations.Table.Arm | internal/core/reservations.go:222-226 | the record gets a timer of its own at its expiry, and every live timer still belongs to its record |
| Reservations.Table.Collect | internal/clocktest/clock.go:69-85 | advancing the clock marks the due timers, leaves the table alone and leaves no due timer live |
| Reservations.Table.Settled | internal/core/reservations.go:221-246 | once the collected timers have run no active reservation is due |
| Reservations.Table.StopAll | internal/core/service.go:207-214 | Close leaves no timer live |
| Reservations.Table.Restore | internal/core/persist.go:136-166 | the loop over the stored reservations restores what the specification says and reports whether it dropped any |
| Reservations.Table.PersistableReservations | internal/core/persist.go:52-64 | the loop and the sort give the active reservations in the order of their ids |
| ChargePoints.Stations.Connected | internal/core/service.go:300-313 | the charge point is online, every EVSE of it advertises the status of the station if that is OUTOFORDER or INOPERATIVE, else what its connector reported, else UNKNOWN; and the events are the connected event followed by the status changes |
| ChargePoints.Stations.Disconnected | internal/core/service.go:318-335 | if the charge point was online every EVSE of it turns UNKNOWN, and there are events exactly then: the disconnected event and then the status changes |
| ChargePoints.Stations.SetConnectorStatus | internal/core/service.go:378-404 | connector 0 sets the station's status and no report, any other connector sets the report of its EVSE, the configured one if there is one, and nothing else; every EVSE then advertises what follows; the events are the station's, only if its status is another one, and then the status changes |
| ChargePoints.Stations.RecordMeterValues | internal/core/service.go:408-421 | an EVSE may become known, the configured ones keep advertising what they should, and the one event is that of the meter values, on the configured EVSE if there is one |
| ChargePoints.Stations.Book | internal/core/transactions.go:79-107 | the transaction is recorded under its charge point with the next number |
| ChargePoints.Stations.Stop | internal/core/transactions.go:154-171 | a running transaction is stopped, and nothing changes if there is none |
| ChargePoints.Stations.Restore | internal/core/persist.go:123-134 | the loop over the stored transactions restores what the specification says |
| ChargePoints.Stations.PersistableTransactions | internal/core/persist.go:66-86 | the nested loops and the sort give the running transactions in the order they began |
| ChargePoints.SessionsOf | internal/core/persist.go:68-73 | the inner loop finds exactly the running transactions of one charge point |
| Listing.ActiveInOrder | internal/core/persist.go:64 | sorting the active reservations found in any order gives the one list that a snapshot must hold |
| Listing.RunningInOrder | internal/core/persist.go:75 | likewise for the running transactions |
| EvseStatus.ChargePoint.Recompute | internal/core/service.go:247-267 | every EVSE advertises UNKNOWN if the charge point is offline, the status of the station if that is OUTOFORDER or INOPERATIVE, else what its connector reported, else UNKNOWN; the events are one per EVSE that moved, and replaying all events so far gives the statuses |
| EvseStatus.MovesTell | internal/core/service.go:247-267 | replaying the events of a recompute on top of earlier ones gives the new statuses, each event moving from the replayed status to another |
| EvseStatus.MovesOnce | internal/core/service.go:243-246 | an EVSE gets one event if its status moved and none if it did not |
| EvseStatus.MovesSay | internal/core/service.go:255-264 | each event of a recompute names its EVSE, the status it moved from and the one it moved to, with the error code last reported for it |
| EvseStatus.DerivedIs | internal/core/status.go:37-49 | re-deriving reaches every listed EVSE and no other |
| EvseStatus.ChargePoint.AddEvse | internal/core/service.go:234-241 | a new EVSE starts UNKNOWN, a known one is not touched, and what was up to date stays so |
| CoreService.Service.BeginReservation | internal/core/reservations.go:91-118 | either the record is pending and on its way to the caller with the counters on file, or nothing is left of it |
| CoreService.Service.ActivateReservation | internal/core/reservations.go:125-147 | a pending record becomes active whether or not the write commits, and is on file if it does |
| CoreService.Service.EndReservation | internal/core/reservations.go:152-173 | the record goes; the end is reported and written unless the record was cancelling |
| CoreService.Service.OrphanReservation | internal/core/reservations.go:179-196 | a pending record becomes cancelling and nothing is written |
| CoreService.Service.Advance | internal/clocktest/clock.go:69-91 | with the manual clock, advancing ends the active reservations due by then and no other |
| CoreService.Service.Expire | internal/core/reservations.go:234-246 | a callback for a reservation removed or replaced meanwhile changes nothing |
| CoreService.Service.NextTransactionID | internal/core/transactions.go:30-40 | the id is the counter's, which goes up by one whether or not it could be written |
| CoreService.Service.NextRemoteStartID | internal/core/transactions.go:48-58 | the id is returned exactly if the counter has been written |
| CoreService.Service.StartTransaction | internal/core/transactions.go:74-124 | the fields end up as the specification of a starting session says, and on a configured connector the transaction is on the configured EVSE |
| CoreService.Service.StopTransaction | internal/core/transactions.go:154-184 | likewise for a stopping one |
| CoreService.Service.Persist | internal/core/persist.go:18-39 | if the write commits the stored counters and lists are those of memory, if not the store is as before, and the registration stays either way |
| CoreService.Service.Load | internal/core/persist.go:100-167 | a new service ends up as the specification of a restart says, and writes back exactly if it dropped something |
| CoreService.SessionOnTable | internal/core/transactions.go:127-150 | what a session ends depends on the reservations alone |
| Stored.WriteDown | internal/core/persist.go:31-38 | the state file's store does with core's edit what core assumes, and afterwards holds nothing that existed before |
| StateStore.State.Clone | internal/state/state.go:99-110 | a clone has the same value and shares nothing with anything that existed |
| StateStore.State.Normalize | internal/state/state.go:116-135 | in place, the value becomes its normal form and no list or registration is exchanged for another |
| StateStore.NormalizeReservations | internal/state/state.go:124-128 | the loop converts both timestamps of every reservation |
| StateStore.NormalizeTransactions | internal/state/state.go:129-131 | the loop converts the timestamp of every transaction |
| Contents.NormalIdempotent | internal/state/state.go:112-135 | normalizing twice is normalizing once |
| Effects.NormalIs | internal/state/state.go:116-135 | normalizing sets the version and moves every timestamp to UTC, the same instant; each reservation, each transaction and the registration are otherwise as they were |
| StateStore.Store.Open | internal/state/store.go:32-79 | it fails exactly if there is a file that cannot be read or is not a state of this version, never writes, and otherwise memory is what the file reads as |
| StateStore.ReopenedIs | internal/state/store.go:32-79 | which error, or which state, comes of every kind of file: the version decides before the rest is decoded |
| StateStore.Store.Get | internal/state/store.go:107-111 | the copy has the store's value and shares nothing |
| StateStore.Disk.Write | internal/state/store.go:136-178 | after any failure or death on the way the file is the old one or the new one, the new one exactly if the rename took place; success means that every call up to the rename worked, a reported failure that one of them failed; and a failed write leaves no temporary file unless its removal failed |
| StateStore.Store.BeginUpdate | internal/state/store.go:117-121 | the function gets a copy that shares nothing with the store |
| StateStore.Store.FinishUpdate | internal/state/store.go:121-131 | memory and file change together or not at all, memory equals what a reopen reads, and the store's lists and registration are then those the function left, its caller's or even ones adopted before |
| StateStore.Store.NormalStays | internal/state/state.go:116-135 | normalizing lists or a registration that the store already owns changes nothing |
| StateStore.Store.HarmlessWrites | internal/state/store.go:105-131 | whoever holds none of the store's lists, nor its registration, cannot make memory differ from the file |
| StateStore.Store.Spoil | internal/state/store.go:113-131 | whoever holds one of them that is not empty can |
| StateStore.ARetainedListSpoils | internal/state/store.go:117-131 | an update whose function installs a list that is written into afterwards leaves memory and file apart |
| StateStore.ARetainedStructIsHarmless | internal/state/store.go:130 | writing to the struct the function was given, afterwards, changes nothing in the store |
| ManualClock.Timer.Stop | internal/clocktest/clock.go:43-52 | it returns true exactly if the timer had neither fired nor been stopped, and then it never fires |
| ManualClock.Clock.AfterFunc | internal/clocktest/clock.go:57-64 | the timer is scheduled once, at now plus d |
| ManualClock.Clock.Advance | internal/clocktest/clock.go:69-91 | the timers handed out to run are those due and not stopped, each for the only time, in deadline order |
| ManualClock.DeadlineOrder | internal/clocktest/clock.go:87 | the firing order is the only one that is by deadline and keeps equal deadlines in the order they were scheduled |
| ManualClock.Clock.Pending | internal/clocktest/clock.go:94-105 | it counts the timers neither fired nor stopped |
| Bus.OfferedKeeps | internal/core/event.go:144-155 | publishing to a subscriber keeps its books balanced and in order, and drops the event exactly if the buffer is full |
| Bus.NothingDropped | internal/core/event.go:98-101 | a subscriber has lost nothing if and only if it has received or buffers everything, in order |
| Bus.Bus.Publish | internal/core/event.go:144-155 | every subscriber is offered the event once, and nobody else |
| Bus.Bus.Subscribe | internal/core/event.go:125-131 | a new subscriber starts with empty books at this point of the history |
| Bus.Bus.Cancel | internal/core/event.go:133-142 | the first call unsubscribes and closes, later ones do nothing |
| Bus.Bus.Drops | internal/core/event.go:158-169 | a name is listed exactly if a subscriber of that name lost events, with the number one of them lost |
| Bus.NeverSendsOnClosed | internal/core/event.go:133-155 | under any interleaving of publish, subscribe and cancel nothing is sent on a closed channel |
| Bus.EveryPublishIsAccountedFor | internal/core/event.go:144-155 | whenever nobody is publishing, each publish begun while somebody was subscribed has reached them exactly once: received, buffered or dropped |
| LockFile.MutualExclusion | internal/state/lock_unix.go:29-65 | over every interleaving of open, flock, stat, unlink, close and process death at most one claim is between LockPath and Release, and the path names its inode |
| LockFile.HolderKeepsTheLock | internal/state/lock_unix.go:48-55 | while a lock is held no other step takes it or moves the path |
| LockFile.AloneReturns | internal/state/lock_unix.go:37-56 | a process left alone anywhere inside LockPath returns the lock or ErrLocked after at most one retry |
| LockFile.AloneFromTheTop | internal/state/lock_unix.go:37-56 | from the top of the loop it returns without a retry, with ErrLocked exactly if the file is locked |
| Conn.AnswerIsTheFirstOwn | internal/ocpp/ocppj/conn.go:161-199 | an answer Call returns is that of the first response with its own id since it registered |
| Conn.PendingIsExact | internal/ocpp/ocppj/conn.go:201-212 | the pending table holds exactly the ids of the calls still running |
| Conn.UselessResponseChangesNothing | internal/ocpp/ocppj/conn.go:296-309 | a response nobody waits for, or a second one, leaves no trace |
| Conn.OutcomeIsFixed | internal/ocpp/ocppj/conn.go:183-199 | once a call has left its last select, what it returns does not change, whatever responses come late |
| Calls.AnswersArrive | internal/ocpp/ocppj/conn.go:294-309 | once a response to a waiting call has been read and passed on, the call can take the answer of the first one since it registered, and returns it then |
| Calls.CallsAreSentOnce | internal/ocpp/ocppj/conn.go:161-181 | over every run the frame of a call is queued at most once, exactly once if the call returns an answer or times out and never if it could not be encoded, and frames are written in the order they were queued |
| Calls.ClosedCallsReturn | internal/ocpp/ocppj/conn.go:214-221 | once the connection is closed every registered call can return by at most two steps of its own, with what it had or with the connection closed, leaving no entry |
| Conn.OnlyBadDetailsGoUnanswered | internal/ocpp/ocppj/conn.go:313-354 | only an error whose details cannot be encoded goes unanswered; any other error reaches the peer with the code, description and details the handler raised it with; a panic and a result that cannot be encoded are answered as internal errors |
| Conn.AnswersFollowTheCalls | internal/ocpp/ocppj/conn.go:275-333 | while the connection is open the queued answers are, in the order the peer sent the calls and under their ids, the result or the raised error of each, or an internal error; one per call if and only if no error had details that cannot be encoded |

## Left out

- Encoding: JSON is assumed to read back what was written for a state in normal form; frames of the OCPP-J protocol are modelled after parsing.
- Files: a rename is the atomic and durable commit; a power cut after a failed directory sync is not modelled (`internal/state/store.go:173-177`).
- Integers are unbounded: counters do not overflow, and instants and durations are integers rather than `time.Time`.
- Common.EqualFold: folds ASCII letters only, while `strings.EqualFold` folds Unicode; only `Common.EqualFoldIs` depends on which letters fold.
- Configuration: a Service without configuration, with no store, and the validation that makes uids and connector ids distinct.
- Files edited by hand: a restart is modelled for files core itself wrote.
- Callbacks, functions passed to Update and handlers of inbound calls appear as data, as the code between two calls, or as their outcome, since methods cannot be passed as values.
- The class Service runs each operation to its end, on its own store; how operations and writes interleave is the subject of the machines.
- CoreService.Store.Update: stands for the interface through which core sees its store, on a state held as a value; `Stored.WriteDown` shows the real store doing the same.
- Persistence.CoveredTransactionIdsAreNeverReused: speaks of writes of the id's own run; `Reissue.HandedOutExactlyWhen` covers every number in every state.
- Delivery: events are counted and ordered as they are generated under the lock; the order in which several threads deliver them is not modelled.
- Conversation.HeldIsRecorded: covers one connection; what a station keeps after a dropped connection or a crash with a request in flight is a documented gap of the program.
- Backing arrays shared by slices of different length are not modelled; a list is one array.
- Boot information, last-seen times, heartbeats and their events, and the rendering of Snapshot and Event. Reservation and transaction events appear as results of the operations, not as values of their own.
- Agreement between the connection registry and the online flag (`internal/ocpp/csms/server.go`), ping, pong and read deadlines.
- The commands other than Reserve, Cancel and Close; the simulator's handlers other than reserveNow and cancelReservation.
- The Windows variants of the lock and the directory sync.
