# Verified model of oasis-modbus2mqtt

A Dafny model of the bridge between an Oasis ventilation controller (Modbus TCP) and Home Assistant (MQTT), with
proofs about every run of it. `dafny verify dfyconfig.toml` checks the project.

## How the model is built

| files | what they hold |
|---|---|
| `Words`, `Values`, `Snapshots`, `ErrorCode` | 16-bit words and their bits, the big-endian register codec, the value objects, the batched decode and the tier merge, the error catalogue |
| `Modbus`, `Commands` | requests, wire operations, replies and error classes; MQTT messages, commands and the requests they make |
| `Machine` | client, callers, failure counter and supervisor as one state machine: one step for each point where another goroutine can run |
| `Invariants`, `Transactions`, `Safety`, `Recovery` | what every step of that machine keeps, and the theorems about all of its runs |
| `Bridge` | MQTT workers, the three pollers and the availability watcher on top of the machine |
| `Calls`, `Histories`, `Handling`, `Watcher` | what every step of the bridge keeps: the commands and polls, the shared snapshot, the messages, the polls' timestamps, the watcher's ticks |
| `Guarantees`, `Readback`, `Revival`, `Fulfilment` | the theorems about all runs of the whole bridge, and about the runs there are from every reachable state |
| `Client`, `Dispatcher`, `UseCases`, `Backoff`, `Availability` | the same components as the classes they are, with their fields, loops and early returns |

Two forms of one program meet in the classes of `Client`, `Dispatcher` and `UseCases`. Each method carries a ghost `Run`
of the machine from its initial state, and its contract says that what the method did to its fields and to the world is
a sequence of the machine's own steps (`IsRun`, `Agrees`, `Ready`), besides saying directly what it left in the fields
and registers. So the machine's invariants hold after every one of these steps, whatever else is interleaved. The
contracts of `Apply` and `Poll` state the predicates that `Calls` states of the bridge's runs (`WireFits`, `Achieved`,
`ReadsInOrder`, `IsFullReply`): both forms of a command, and of a poll, meet one specification of their wire operations.

A run is any sequence of steps from an initial state. Steps of any number of threads, of the supervisor, of the clock and
of the controller interleave freely. Every fault is a choice of the environment: a refused connection, a timeout, a torn
connection, a protocol exception, a reply with an odd or wrong number of bytes, a context cancelled in a guard wait or in
the dwell of an OFF command, a write that is reported failed but was applied. The controller may change its input
registers at any moment and changes a holding register only when that register is written.

The controller's answers follow sections 4.2 (big-endian registers), 6.3, 6.4 (reads of 1 to 125 registers), 6.6 (write
single register) and 7 (exceptions) of the MODBUS Application Protocol Specification V1.1b3.

Where the code and its comments disagree the model follows the code: ON commands respect the transition guard like all
others (application/usecase/apply_command.go:137-140), although comments at lines 96-97 and 208-209 say they bypass it;
and the client hands on a reply with another number of registers than asked for, although the port's documentation
promises the exact count (application/port/modbus_client.go:12-14); the pollers make the check. `Modbus.CountIsUnchecked`
says when, and `Modbus.ShortReply` gives a reply.

Four properties that look natural are false of the code.

- "Exactly one TCP connection" (README.md:29): a transport error clears the connected flag without closing the transport,
  and ForceClose then returns early (infrastructure/modbus/client.go:87-89, 283-294). `Safety.TransportConservation`
  gives the exact condition for at most one open transport, and `Recovery.TransportsLeak` runs that end with more than n
  of them, for every n.
- "At least GuardInterval since the last op completed" (infrastructure/modbus/client.go:304-306), over a reconnect: Connect
  clears lastOpAt (line 74), so the first operation on a new transport does not wait; only the supervisor's wait before
  the dial keeps it apart from the last one before. `Recovery.WaitDecides` and `Recovery.ConfigurationDecides` give the
  exact conditions: the interval is kept in all runs if and only if no wait is shorter, that is, if and only if
  RECONNECT_MIN_DELAY * (1 - RECONNECT_JITTER_PCT), truncated, is at least MODBUS_GUARD_INTERVAL. It is for the defaults
  (`Recovery.DefaultsAreSpaced`), but Validate does not ask for it, and `Recovery.ShortWaitBreaks` gives a run for every
  shorter wait.
- The PolledAt of the shared snapshot can turn back, although each merge comes later than the one before: a poll reads the
  clock before it merges, and another tier's poll may read it later and merge earlier. `Revival.PolledAtTurnsBack` gives
  such a run from every initial state; `Readback.PollsAreStampedInOrder` and `Readback.TurnsBackOnlyAcrossPollers` say what
  holds: one poller's publications are in order, and PolledAt turns back only if another poller has published since the
  last read of the poll that is published.
- `Config.Validate` accepts reconnect factors for which the delay never grows, because each step is truncated to whole
  nanoseconds. `Backoff.MaximumReached` gives the exact condition, `Backoff.NeverGrows` an accepted configuration.

## Model

| member | source | states |
|---|---|---|
| Safety.SpacedAcrossReconnects | infrastructure/modbus/client.go:304-324 | In every run whose waits after a teardown are at least the guard interval, any two wire operations of the whole run, of any threads and on either side of any reconnects, are a guard interval apart from the end of one to the start of the next |
| Recovery.ShortWaitBreaks | infrastructure/modbus/client.go:70-78 | For every wait shorter than the guard interval, every threshold, every initial state with a caller and every valid request, some run with that wait has an operation sooner than a guard interval after another |
| Recovery.WaitDecides | application/service/connection_supervisor.go:127-143 | All runs with a given wait keep the interval across reconnects if and only if the wait is at least the guard interval |
| Recovery.ConfigurationDecides | infrastructure/config/config.go:240-255 | All runs whose waits after a teardown are first delays of the configured backoff keep the interval if and only if min * (1 - jitter), truncated to nanoseconds, is at least the guard interval |
| Recovery.DefaultsAreSpaced | infrastructure/config/config.go:109-165 | With the default guard interval, minimum delay and jitter all runs keep the interval across reconnects |
| Safety.GuardSpacing | infrastructure/modbus/client.go:304-324 | In every run, whatever the supervisor waits, any two wire operations between two successful opens, of any threads, the two halves of one modify included, are a guard interval apart from the end of one to the start of the next |
| Safety.TransportConservation | infrastructure/modbus/client.go:49-103 | In every run, opens equal ForceCloses of a live transport plus wire operations that ended in a network fault (a timeout, an end of file or another failure of the socket) plus one if connected; at most one transport is open if and only if the network faults so far plus one for a live connection are at most one |
| Safety.CounterIsHistory | application/service/command_dispatcher.go:102-124 | The counter is the length of the trailing run of failures in the recorded outcomes, and the Trigger calls are the failures whose run had reached the threshold |
| Safety.NoTriggerLost | application/service/connection_supervisor.go:65-74 | The channel is full exactly when a Trigger came after the last receive; teardowns never exceed receipts, nor receipts Triggers |
| Safety.SupervisorFollowsProtocol | application/service/connection_supervisor.go:82-152 | The supervisor's log is always cut from ConnectFail* ConnectOk (Receive ForceClose ConnectFail* ConnectOk)*; the client stays disconnected until each ConnectOk, which always opens a new transport |
| Safety.NeverStuckDisconnected | application/service/command_dispatcher.go:102-124 | No reachable state is disconnected with an idle supervisor, no token and nobody owing a failure or a Trigger, unless the counter is below the threshold |
| Safety.FailuresForceTrigger | application/service/command_dispatcher.go:98-124 | From a disconnected state below the threshold, until the supervisor acts: the only successes counted are of operations that had succeeded before the loss, the counter is the run of failures since the last counted success, and at the threshold the alarm is raised; without such late successes every recorded outcome counts one up |
| Safety.UpdatesCompose | infrastructure/modbus/client.go:161-234 | In every run no wire operation falls between the halves of a modify, the write half writes the update of the register's current value, and each holding register is the composition in wire order of the writes and updates that reached it |
| Safety.MutexProtects | infrastructure/modbus/client.go:164-166 | While a thread holds the mutex nobody else changes the connection flag, the guard clock or a holding register, or touches the transport |
| Safety.HolderCanStep | infrastructure/modbus/client.go:240-274 | Whoever holds the mutex has, if need be after time passes, a step that brings its release closer |
| Safety.InvKept | infrastructure/modbus/client.go:49-324 | Every step keeps all the machine's invariants together |
| Recovery.AlwaysRecoverable | application/service/connection_supervisor.go:108-152 | Every reachable state with a running supervisor has a continuation that ends connected with the supervisor idle, whatever valid request its failing caller makes and however long the supervisor waits after a teardown |
| Recovery.HealingIsInevitable | application/service/connection_supervisor.go:111-152 | Every run, from any state and with any interleaving, in which the supervisor is not stopped and takes five steps of its own, and three more for each dial that failed, passes through a connected state with an idle supervisor |
| Recovery.SupervisorCanStep | application/service/connection_supervisor.go:111-152 | With the mutex free and, if it is idle, a token in the channel, the supervisor has, if need be after time passes, a step that brings such a state closer |
| Recovery.HolderLeaves | infrastructure/modbus/client.go:240-274 | The holder of the mutex can finish its operation and give the mutex back, whatever point it is at |
| Recovery.FailuresHeal | application/service/command_dispatcher.go:102-124 | From disconnected with an idle supervisor, failing calls alone lead to a repaired connection |
| Recovery.TransportsLeak | infrastructure/modbus/client.go:83-103 | For every n and every wait after a teardown some run from any initial state ends connected with more than n open transports |
| Revival.PollsRevive | application/service/poller.go:141-200 | From every reachable state of the bridge with a running supervisor, the steps of any one poller and those inside calls and the supervisor can lead to a connected client and a fresh publication of that poller's tier |
| Revival.EveryTierRevives | application/service/poller.go:141-200 | So every tier can come to be published afresh from every such state, and each has exactly one poller |
| Revival.PolledAtTurnsBack | application/service/poller.go:185-188 | From every initial state with a hot and a medium poller, some run ends with a publication that lowers the shared snapshot's PolledAt |
| Invariants.ProtocolKept | application/service/connection_supervisor.go:111-152 | Every step keeps the supervisor's log a prefix of the protocol, at the place its state says |
| Invariants.AlarmKept | application/service/command_dispatcher.go:98-124 | Every step keeps: while disconnected with an idle supervisor, a count at the threshold has a token in the channel or a caller that still owes one |
| Invariants.GuardKept | infrastructure/modbus/client.go:307-324 | Every step keeps the spacing and what lastOpAt and sleeping threads know about the past |
| Transactions.UpdateKept | infrastructure/modbus/client.go:172-226 | Every step keeps: a thread between the halves of a modify still has the value it read in the register |
| Transactions.TrailKept | infrastructure/modbus/client.go:164-274 | Every step keeps: a call has on the wire at most one operation per leg, after its own beginning, and its result is what the last reply means |
| Transactions.RegisterIsComposed | infrastructure/modbus/client.go:164-234 | With no update lost, a register is the composition of the writes and updates that reached it |
| Guarantees.MessagesAreHeeded | interface/mqtt/command_subscriber.go:108-188 | In every prefix of every run, the commands a thread began since its latest message are the first of that message's, in order, each begun only after the one before had succeeded |
| Guarantees.MessagesAreCarriedOut | interface/mqtt/command_subscriber.go:93-188 | In every run, a worker at rest has carried out its latest message: all of its commands were begun and ended in success, in order, or the last one begun ended in failure |
| Guarantees.FailuresHaveCauses | application/usecase/apply_command.go:99-216 | In every run, a command ends in failure if and only if since its beginning the snapshot showed a transition (operation 1 to 12), a request of its was counted as failed, or its dwell was cancelled; only an OFF between its acknowledged 1 and its 0 has a dwell; a poll ends without a publication only after a read that was counted as failed or was answered by another number of registers |
| Fulfilment.MessageCanBeCarriedOut | interface/mqtt/command_subscriber.go:93-188 | From every reachable state with a running supervisor, a hot poller and a worker at rest, whatever the message, the run can go on so that the worker receives it and carries all of it out, with the holding registers exactly as the message asks |
| Fulfilment.OffCanStopHalfWay | application/usecase/apply_command.go:149-163 | An OFF is not all or nothing: from every reachable state with a running supervisor, a hot poller and a worker at rest, a message that asks for one can end cancelled in the dwell, with the 1 left in register 2 |
| Guarantees.WritesAreLegal | interface/mqtt/command_subscriber.go:93-178 | Every write on the wire is one its thread's latest message asks for: 1 or 0 for power, a setpoint in 50..300 within half a step of the requested temperature, the requested fan speed in 1..10, or the mode update of that hvac_mode |
| Guarantees.CommandsAreLawful | application/usecase/apply_command.go:99-216 | At every moment each thread's latest command or poll has put on the wire only a prefix of its script, each step after the one before went through |
| Guarantees.ModeWritesKeepOtherBits | application/usecase/apply_command.go:167-181 | Bits 2..15 of Dev_Keys_2 keep their initial value through every run |
| Guarantees.FallingFollowsRising | application/usecase/apply_command.go:149-163 | Each 0 written to Power_Dev follows an acknowledged 1 of the same call by at least the dwell, with nothing of that thread's in between |
| Guarantees.FallingsNeverLead | application/usecase/apply_command.go:137-165 | In every prefix of every run the 0s written to Power_Dev never outnumber the acknowledged 1s |
| Readback.TransitionRefused | domain/entity/operating_state.go:106-108 | In every prefix of every run, a command began with the operation that the low five bits of State_1 say, as the last hot poll published before had read it (0 before the first); with 1 to 12 in them it has put nothing on the wire and reported no success, with any other value it was not in a transition |
| Readback.SuccessMeansAcknowledged | application/usecase/apply_command.go:137-205 | A command reports success exactly when all its writes were acknowledged; a successful OFF sent both edges |
| Readback.PublicationDecodesMemory | application/usecase/poll_controller.go:64-187 | In every run, every published snapshot decodes the controller's memory at the three reads of its own poll, in the order the tier reads |
| Readback.WriteIsReadBack | application/service/poller.go:185-188 | In every run, a value that reached a polled register, with no other write before the poll's last read, is in the poll's partial and in the merged snapshot |
| Readback.CommandIsReadBack | application/usecase/apply_command.go:167-205 | After an acknowledged temperature, fan or mode command, a later matching poll publishes what was commanded, through encode, modify, batch read, decode and merge |
| Readback.LatestIsComposition | application/service/poller.go:185-247 | In every run the shared snapshot is the record built field by field from each tier's last successful poll, stamped by the last merge |
| Readback.EachPublicationDeliveredOnce | application/service/poller.go:190-196 | Once a subscriber is registered and a poller in no round that began without it, the subscriber receives from that poller what it was owed then and every later publication, each once, in order, and nothing else; at most the one being handed out is still missing |
| Readback.EarlySubscribersMissNothing | application/service/poller.go:190-196 | A subscriber registered before the start gets every publication of each poller, in order, and no other value |
| Readback.LateSubscribersMissNothing | application/service/poller.go:101-110 | A subscriber that registers at any time while a poller hands nothing out gets every later publication of that poller, each once, in order, and no other value |
| Readback.PollsAreStampedInOrder | application/usecase/poll_controller.go:87-187 | In every run, a published poll is stamped no earlier than the end of its last read, nor than any poll published before that read, and so no earlier than any its own poller published before |
| Readback.TurnsBackOnlyAcrossPollers | application/service/poller.go:185-188 | In every run, if a publication has an earlier PolledAt than one before it, that one was another poller's and fell between the last read and the merge of the poll it overtook |
| Histories.PollStampKept | application/usecase/poll_controller.go:87-187 | Every step keeps: no stamp is in the future, and a poll read but not yet merged is no older than what was published before its last read |
| Snapshots.MergeRefinement | application/service/poller.go:206-247 | Any sequence of merges yields the field-by-field composition of each tier's last partial |
| Snapshots.MergesCommute | application/service/poller.go:206-247 | Merges of different tiers commute except on PolledAt |
| Snapshots.AssembleDecodesRegisters | application/usecase/poll_controller.go:64-187 | Decoding by offset into the three batches equals decoding each field from its own register address, whatever memory each batch saw |
| Snapshots.FieldDecoders | domain/entity/operating_state.go:62-108 | The field decoders in arithmetic: int16, five-bit operation with 13..31 unknown and 1..12 in transition, nibbles of the device type, minutes and seconds |
| Snapshots.SensorTemperature | application/usecase/poll_controller.go:194-205 | A sensor register stands for exactly its tenths of a degree within 50..300, and for zero outside |
| Snapshots.EmptyMeans | application/service/poller.go:164-200 | The snapshot before any poll shows operation 0, which is no transition, and counts as never polled |
| Client.Client.WaitGuardInterval | infrastructure/modbus/client.go:307-324 | Success means the guard interval is over; a cancelled wait puts nothing on the wire and leaves lastOpAt alone |
| Client.Client.Perform | infrastructure/modbus/client.go:252-294 | One wire operation: clock stamped, memory changed as the reply says, and connected afterwards if and only if it was before and the reply is not a network fault |
| Client.Client.DoOp | infrastructure/modbus/client.go:236-274 | A single operation is a run of the machine's steps; disconnected it fails and leaves the memory untouched, a read changes nothing, a successful write sets its register only |
| Client.Client.Read | infrastructure/modbus/client.go:112-151 | Bad counts fail without I/O; a reply of the asked length is the registers themselves |
| Client.Client.ModifyHolding | infrastructure/modbus/client.go:164-234 | Success leaves the update of the value the register had; failure leaves that or the value itself |
| Client.Client.Connect | infrastructure/modbus/client.go:46-79 | Success exactly when connected afterwards; a new transport forgets the guard clock, a failure keeps it |
| Client.Client.ForceClose | infrastructure/modbus/client.go:81-103 | Leaves the client disconnected, twice or not, as the machine's teardown step |
| Modbus.CountIsUnchecked | infrastructure/modbus/client.go:125-150 | A read returns another number of registers than asked for exactly when the reply has an even number of bytes that is not twice the count |
| Modbus.FaultClasses | infrastructure/modbus/decode.go:71-116 | The class of every fault by what its error chain holds: a timeout first, then any other network fault, then exception codes 1 to 4; the connection is dropped exactly on network faults |
| Modbus.WritesReach | infrastructure/modbus/client.go:154-158 | The answers a write may get are an acknowledgement and faults; it reaches its register if acknowledged or if the fault says so, and changes nothing else |
| Modbus.RepliesMean | infrastructure/modbus/client.go:125-226 | What each reply means to the caller: the class of a fault, the odd or wrong number of bytes, the panic of a modify function, or going on to write its value |
| Dispatcher.TriggerChannel.Send | application/service/connection_supervisor.go:69-74 | After a send the channel is full, dropped or not |
| Dispatcher.CommandDispatcher.RecordOutcome | application/service/command_dispatcher.go:102-124 | The counter grows by one on a failure and is zero after a success; the channel fills exactly at or over the threshold |
| Dispatcher.CommandDispatcher.Read | application/service/command_dispatcher.go:65-77 | A read proxied: result of the client, outcome counted, no register written |
| Dispatcher.CommandDispatcher.WriteHolding | application/service/command_dispatcher.go:79-84 | A write proxied: its register set on success, at most its register changed on failure, outcome counted |
| Dispatcher.CommandDispatcher.ModifyHolding | application/service/command_dispatcher.go:86-91 | A modify proxied: updated on success, updated or untouched on failure, outcome counted |
| Dispatcher.ConnectionSupervisor.InitialConnect | application/service/connection_supervisor.go:82-106 | Failed dials, as many as waits, and then on success one that succeeded, or none if the client was connected; the waits are the backoff's, in order, and were waited out, but for a last one that the context cut short, which alone ends it early |
| Dispatcher.ConnectionSupervisor.Serve | application/service/connection_supervisor.go:111-124 | One turn after a token: the token is taken, the transport torn down, a wait before every dial; success leaves a connected client and a reset backoff, and only the context ends it before the samples run out |
| Dispatcher.ConnectionSupervisor.ReconnectLoop | application/service/connection_supervisor.go:127-152 | Dials until one succeeds or the context is done, each after the backoff's next wait, in order and waited out; gives up only when the context cut a wait short |
| UseCases.Poller.Subscribe | application/service/poller.go:101-110 | Appends the callback; a nil one is ignored |
| UseCases.Poller.Poll | application/usecase/poll_controller.go:61-187 | Requests and wire operations are the tier's reads in order, each but the last answered in full; there is a partial snapshot if and only if all three were answered in full, and it decodes the memory of the run right after each of them |
| UseCases.Poller.DoPoll | application/service/poller.go:164-200 | Three full replies merge the tier's fields and call every subscriber once, in order, with the merged snapshot; anything else changes and delivers nothing |
| UseCases.ApplyCommand.SetPowerEdges | application/usecase/apply_command.go:142-165 | ON writes 1; OFF writes 1 and then, unless that failed or the dwell was cut short, 0; success means that all of it was acknowledged, and every error says which of these happened |
| UseCases.ApplyCommand.Apply | application/usecase/apply_command.go:99-216 | Refused, with nothing requested, if and only if the snapshot's operation is in 1..12; otherwise a prefix of the script, each request after the one before succeeded, success if and only if all writes were acknowledged, with the register as commanded, and failure only after a request counted as failed or a dwell cut short |
| UseCases.CommandSubscriber.HandlePower | interface/mqtt/command_subscriber.go:92-106 | The message's commands in order up to the first failure; nothing is requested if and only if the payload is malformed or the snapshot shows a transition |
| UseCases.CommandSubscriber.HandleHvacMode | interface/mqtt/command_subscriber.go:108-133 | The message's commands in turn, the second only after the first had all its writes acknowledged; ok if and only if all commands did, and then the registers are as commanded; otherwise a transition, a request counted as failed, or a dwell cut short |
| UseCases.CommandSubscriber.HandleTargetTemperature | interface/mqtt/command_subscriber.go:135-155 | One validated setpoint command, or nothing |
| UseCases.CommandSubscriber.HandleFanTarget | interface/mqtt/command_subscriber.go:157-178 | One validated fan command, or nothing |
| UseCases.MessageMeans | interface/mqtt/command_subscriber.go:93-178 | What each message, handled successfully, leaves in registers 2, 31, 32 and 86, with the payloads spelled out letter by letter in either case, and that all other payloads leave everything alone |
| Commands.PayloadsMean | interface/mqtt/command_subscriber.go:93-178 | Which payloads ask for which commands: the words of each topic in any mixture of cases, setpoints of 5 to 30 degrees, fan speeds 1 to 10, and no others |
| Commands.AnnouncedPayloads | infrastructure/discovery/builder.go:188-196 | The payloads announced to Home Assistant work: ON writes 1 to register 2, OFF 1 and then 0 |
| Backoff.Backoff.Next | application/service/backoff.go:45-66 | The delay lies where the random sample is in the band from base * (1 - jitter) to base * (1 + jitter), in whole nanoseconds, for the base after the calls so far; the base advances by one step |
| Backoff.Backoff.Reset | application/service/backoff.go:68-72 | The sequence starts over |
| Backoff.BaseInRange | application/service/backoff.go:59-63 | The base stays in [min, max] and never decreases |
| Backoff.IntegerFactorIsGeometric | application/service/backoff.go:59-63 | With an integer factor the base is min * factor^k capped at max |
| Backoff.MaximumReached | infrastructure/config/config.go:240-255 | The maximum is ever reached if and only if min is max or the first step is at least a nanosecond, and then within max - min calls |
| Backoff.StaysAtMinimum | infrastructure/config/config.go:249-251 | With a smaller first step the delay stays at the minimum for ever, though the configuration was accepted |
| Backoff.NeverGrows | infrastructure/config/config.go:240-255 | An accepted configuration whose delay stays at one nanosecond below a maximum of two |
| Availability.AvailabilityManager.DoTick | application/service/availability_manager.go:114-147 | Offline if and only if never polled or the poll is older than the threshold; a callback fires exactly on a change, if one is installed |
| Availability.AvailabilityManager.Run | application/service/availability_manager.go:100-112 | The callbacks made over a sequence of ticks are the installed ones among the changes between fresh and stale ticks, stale at the start |
| Availability.CallbackMeans | application/service/availability_manager.go:114-127 | Online fires exactly at a tick that sees a poll no older than the threshold when the one before did not; offline exactly at one that does not when the one before did |
| Availability.CallbacksAlternate | application/service/availability_manager.go:119-127 | Callbacks strictly alternate, starting with online |
| Guarantees.AvailabilityAlternates | application/service/availability_manager.go:114-147 | In every run of the bridge the watcher's callbacks are those of its ticks, strictly alternate starting with online, and tell its state |
| Guarantees.WatcherFollows | application/service/availability_manager.go:114-147 | In every run, the watcher is online after a tick if and only if a poll had been merged before it read the snapshot and the last one was no older than the threshold; a callback fires exactly when that changed |
| Guarantees.ClockIsRead | application/service/availability_manager.go:114-118 | In every run, no call and no tick reads the clock earlier than the calls and ticks before it, the wire operations ended before it or the polls published before it |
| Fulfilment.WatcherCanTurn | application/service/availability_manager.go:100-147 | From every reachable state with a running supervisor, a poller and the watcher, the run can go on to the watcher having said offline, and to it having said online if and only if the threshold is not negative |
| Guarantees.OnlineIsBacked | application/service/availability_manager.go:114-122 | In every run, each online callback has the merge it read: the last one published before the reading, of a poll no older than the threshold at the tick |
| Guarantees.OfflineInTime | application/service/availability_manager.go:114-122 | In every run, after an up-to-date fresh tick and with no poll merged since, offline has fired by one tick gap after the threshold ran out |
| Availability.OfflineInTime | application/service/availability_manager.go:117-122 | Without newer merges and with ticks at most a gap apart, offline fires within one gap of the threshold running out |
| ErrorCode.BuildErrorBitCatalog | domain/entity/error_code.go:41-101 | The catalogue holds every known flag once, in order, and no other |
| ErrorCode.AppendBits | domain/entity/error_code.go:62-98 | One of the three generic loops: the register's bits follow in order, the reserved bit skipped |
| ErrorCode.DecodeErrors | domain/entity/error_code.go:105-131 | The walk returns exactly the catalogued set bits of the four registers, each once, in catalogue order |
| ErrorCode.DecodeCount | domain/entity/error_code.go:105-136 | The decode has as many flags as the four masked words have ones, and is empty exactly when they are all zero |
| Words.BytesToUint16 | infrastructure/modbus/decode.go:50-59 | Odd lengths are rejected; otherwise element i is big-endian at bytes 2i and 2i+1 and encoding gives the bytes back |
| Words.Uint16ToBytes | infrastructure/modbus/decode.go:62-68 | Element i goes big-endian to bytes 2i and 2i+1 and decoding gives the words back |
| Words.DecodeAfterEncode | infrastructure/modbus/decode.go:50-68 | Decoding an encoding is the identity on register sequences |
| Words.EncodeAfterDecode | infrastructure/modbus/decode.go:50-68 | Encoding a decoding is the identity on even-length byte sequences |
| Values.ModeFieldUpdate | domain/valueobject/mode.go:57-64 | A mode update sets the two mode bits, reads back as the mode, and changes no other bit |
| Values.RawIsNearest | domain/valueobject/temperature.go:26-61 | Validation accepts exactly 5 to 30 degrees, and then the nearest tenth is written, the warmer of two equally near; other temperatures are clamped to 50 or 300 |
| Values.RawRoundTrip | domain/valueobject/temperature.go:42-61 | A register stands for exactly its tenths of a degree, and survives decode and encode if and only if it is in the write range |

## Left out

- Client.World.Exchange: a write whose failure is reported is applied before the report or never; a controller that applies it later is not modelled.
- Client.World.Exchange: the real controller resets Power_Dev after an edge; the model stores what is written, and nothing in the bridge reads that register.
- Recovery.TransportsLeak: the transports counted are those the client opened and did not close; that the peer or the operating system may drop them is not modelled.
- Recovery.ConfigurationDecides: the random samples are all reals in [0,1); rand.Float64 returns multiples of a power of two, 0 among them.
- Recovery.AlwaysRecoverable: states that a healing continuation exists from every reachable state; `Recovery.HealingIsInevitable` says what every run has to contain to heal, and that a scheduler and a network let it is not modelled.
- Revival.PollsRevive: likewise, and the poller's next tick is taken to come.
- Fulfilment.MessageCanBeCarriedOut: likewise; in that continuation the controller comes to idle and no wait is cancelled.
- Dispatcher.ConnectionSupervisor.Serve: one turn of the source's endless loop, over the finitely many random samples that the context leaves time for.
- Dispatcher.CommandDispatcher.RecordOutcome: the class form has one caller at a time; interleavings inside recordOutcome are steps of the machine.
- Availability.AvailabilityManager.Run: the ticks the goroutine gets before cancellation, as a finite sequence.
- Backoff.Backoff.Next: float64 is exact reals with truncation, and max times factor is assumed to fit a Duration, which Validate does not bound.
- Values.RawIsNearest: float64 is exact reals; NaN and the infinities are separate kinds that validation rejects.
- UseCases.CommandSubscriber.HandleTargetTemperature: strconv's parsing is taken as a parsed number or a failure; likewise for the fan payload.
- Readback.CommandIsReadBack: power commands have no read-back, because no poll reads Power_Dev.
- Readback.EachPublicationDeliveredOnce: no order is promised between deliveries of different tiers, as in the source.
- The ForceClose of the shutdown path (internal/app/app.go:253-280) and the order of shutdown.
- The field `past` of a task and the event trace of a state are history for the proofs; the program keeps neither.
- In `Bridge` both of the watcher's callbacks are installed, as internal/app/app.go:153 wires them; the class allows for nil ones.
- Nil and unknown commands, which Apply rejects before doing anything.
- The code and description labels of the error catalogue, `Codes` and `String`, and the snapshot's `Errors` field, which no poll fills.
- Firmware formatting and all other display labels; the firmware register is kept raw.
- `NewFanSpeedClamped`, which nothing calls.
- The transport library, TCP, the MQTT client and its reconnects, topics, discovery, HTTP and health handlers, logging, metrics, environment loading.
