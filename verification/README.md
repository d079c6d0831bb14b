# Sourceful Edge Node: verified model

A Dafny model of the parts of the edge node that hold state, interleave or encode: the
network-scan worker pool, the control failsafe, the fleet monitor, the driver store, the device
lifecycle, and the codecs on the wire. `dafny verify dfyconfig.toml` checks all of it.

## Layout

Each component has a specification on values and, where the Go code changes things in place, a
class or method with the same loops and updates that is proved against it.

| files | component |
|---|---|
| `ScanPool`, `NetworkScan` | the pool behind `network_scan`: a step relation over every interleaving, parametric in workers, capacity and dial outcomes; then the channels and goroutines as objects, under any schedule |
| `RegisterScan` | `scan_register_range`, chunk by chunk |
| `Bytes`, `Bits`, `Registers`, `DeviceIdentification`, `SunSpec` | Modbus words, binary digits, numbers and texts; the FC 43/14 parser; SunSpec discovery and the `detect_device` probe |
| `Watchdog`, `Control` | the heartbeat watchdog as a timed automaton; commands, acknowledgments and driver calls over whole runs |
| `RuntimeLocks` | the two locks of a Lua runtime under any number of goroutines |
| `Text`, `Subjects` | message subjects: printing, splitting, routing |
| `FleetLog`, `Fleet` | the fleet as a function of the message log; the nested maps updated in place, and snapshots of them |
| `ProbeWaiters` | waiting for probe responses over one-slot channels |
| `DriverStore` | the in-memory driver map against its directory |
| `DeviceLifecycle`, `ManagedDevice` | the generations of a device's run function as a machine; the run function with its poll loop as a refinement of it |
| `Jwt` | ES256 token framing |
| `Common` | options, subsequences, decimal digits, 64-bit arithmetic |

## What turned out not to hold

These are properties one would expect, or that a comment or name suggests. The model follows the
code; each has the condition under which it does hold.

- A feed re-arms the watchdog only if some tick sees it while it is fresh. With delayed ticks an
  alarm can be lost (`Watchdog.SwallowedAlarm`); `Watchdog.GapFiresIff` is the exact condition, and
  with punctual ticks it always holds (`Watchdog.PunctualGapFiresIff`). The alarm of
  the "60s failsafe" is then raised between 60 and 75 seconds after the last heartbeat
  (`Watchdog.SilenceRaises`, `Watchdog.PunctualLatency`); its call of the driver may still have to wait for the VM.
- A created driver survives a restart except where lua/ exists beside a populated drivers/: a
  create prefers the one, a load the other (`DriverStore.SyncedIff`, `DriverStore.CreatedIsLost`).
  The comment on `SaveSource` says that it reloads the driver; it updates the source only.
- A device stopped while it sleeps after a good poll stays connected in the status, although its
  VM and bridge are closed; after any other stop it is not (`DeviceLifecycle.ConnectedAfterStop`).
- Not every interval outside 100 ms to 60 s is turned down: a request is accepted otherwise than
  meant exactly when its product in nanoseconds wraps around into that window
  (`DeviceLifecycle.RequestAcceptedIff`). The first such request is 18446744073810 ms, and it gets
  about 100 ms (`DeviceLifecycle.FirstWrap`).
- "Expired" commands can reach the driver: expiry is checked before the callback waits for the VM and
  not again. `Control.ExpiredAtCallIff` says exactly when, `Control.LateCall` gives the runs.
- `detect_device` and SunSpec discovery read a field differently when text follows a NUL
  (`SunSpec.ReadingsAgree`, `SunSpec.DetectAgrees`, `SunSpec.DetectDisagrees`).
- Decoding a U64 register goes through int64; the Lua helper does not (`Registers.LuaAgrees64`).
- Tokens with dots break the subject round trip: telemetry can count as another gateway's state, and
  a command as a reading (`Subjects.RoutePrinted` is the exact condition for all tokens;
  `Subjects.DottedSerialMisroutes`, `Subjects.DottedDeviceMisroutes`), and two calls can print one
  subject (`Subjects.PrintSame`, `Subjects.DottedCollision`).
- The cap of 1000 registers per scan does not hold for all bounds: a span of 2^63 or more skips it, and
  a range that ends more than 2^63 before its start can become one of 1001 registers
  (`RegisterScan.CapExactly`, `RegisterScan.CapSkipped`, `RegisterScan.CapMovesEnd`). Where it is skipped,
  the announced number of chunks is wrong (`RegisterScan.AnnouncedTotal`, `RegisterScan.NegativeTotal`).
- Two outstanding probes with one id can cut each other off (`ProbeWaiters.StaysAttached`,
  `ProbeWaiters.RepeatedIdCutsOff`).

## Assumptions

- Clocks, dialling, register reads, connectivity, driver results, write failures and schedules are
  parameters, so each statement is about all of them.
- YAML marshalling and unmarshalling are inverse (`DriverStore.Inverse`), and raw base64url is
  dot-free with a decoder (`Jwt.Faithful`; section 5 of RFC 4648). Hashing and signatures are
  arbitrary functions; a signature's two numbers are below 2^256.
- A driver name given to a create has no path separator (`DriverStore.Plain`), nobody else edits
  the drivers directory, a directory that holds Lua files exists (`DriverStore.WellFormed`), and a
  write happens whole or not at all.
- Whether a dial succeeds depends on the host and port only, so a port that is listed twice gives two
  dials with one outcome.
- A tick of the watchdog reads the last feed and the clock at one moment.
- Strings and JSON documents are sequences and values; a message carries what decoding made of it.

## Model

| member | source | states |
|---|---|---|
| ScanPool.StepConserves | internal/gateway/probe_handler.go:404-438 | No step of producer, worker, closer or collector loses or duplicates a job: for every job the copies not yet queued, queued, held by workers, refused, queued as results and collected add up to what they were. |
| ScanPool.StepInv | internal/gateway/probe_handler.go:408-438 | Every step keeps the whole protocol invariant (no panic, conservation, dial outcomes recorded where they belong, WaitGroup count equal to the live workers, channels closed only after their senders are done) and lowers a termination measure. |
| ScanPool.RunSafe | internal/gateway/probe_handler.go:404-438 | In every interleaving, for any worker count, capacity and dial outcomes: no send on a closed channel, no second close, no negative WaitGroup, no job lost or duplicated, and at most 5 * jobs + workers + 3 steps. |
| ScanPool.NothingPanics | internal/gateway/probe_handler.go:404-438 | In no reachable state is the next operation of any goroutine a send on a closed channel, a second close, or a wg.Done on a counter at zero. |
| ScanPool.Progress | internal/gateway/probe_handler.go:410-438 | While the collector has not returned some goroutine can move, for any capacity >= 1 and at least one worker: the pool cannot deadlock. The function names the step. |
| ScanPool.StuckIffCollected | internal/gateway/probe_handler.go:430-438 | A state is stuck exactly when the collector has returned. |
| ScanPool.CollectedAll | internal/gateway/probe_handler.go:432-438 | When the collector has returned, both channels are closed and drained, every worker has exited, and `found` is as a multiset exactly the jobs whose dial succeeds. |
| ScanPool.MaximalRunComplete | internal/gateway/probe_handler.go:404-438 | Every run that cannot be extended has collected exactly the accepting jobs without panicking. |
| ScanPool.Completable | internal/gateway/probe_handler.go:404-438 | Every reachable state can be run to the collector's return. |
| Common.DecimalReads | internal/gateway/probe_handler.go:425 | The digits printed for a host number read back, place by place, as that number, without a leading zero. |
| NetworkScan.AddressInjective | internal/gateway/probe_handler.go:425 | Different host numbers of a subnet give different addresses (decimal rendering is injective). |
| NetworkScan.AllJobsCount | internal/gateway/probe_handler.go:423-427 | The producer's two loops generate each host and port pair once per time the port is listed, and none outside the range. |
| NetworkScan.Scan.ProducerStep | internal/gateway/probe_handler.go:422-429 | One turn of the producer refines the Produce or CloseJobs step and keeps the invariant; its precondition is only that there is room, never that the channel is open. |
| NetworkScan.Scan.WorkerReceive | internal/gateway/probe_handler.go:410-412 | The top of a worker's loop refines Take or, on a closed and drained channel, Exit with its deferred wg.Done. |
| NetworkScan.Scan.WorkerDial | internal/gateway/probe_handler.go:413-415 | A dial moves the job on or refuses it. |
| NetworkScan.Scan.WorkerSend | internal/gateway/probe_handler.go:416 | A worker's send puts exactly its own job into results. |
| NetworkScan.Scan.CloserStep | internal/gateway/probe_handler.go:430 | The closer runs only once no worker is live, and closes results. |
| NetworkScan.Scan.CollectorStep | internal/gateway/probe_handler.go:432-438 | The collector appends the oldest result, or returns on a closed and drained channel. |
| NetworkScan.Scan.Run | internal/gateway/probe_handler.go:404-438 | The goroutines, under any schedule, run to an end in which both channels are closed and drained and `found` is the accepting jobs as a multiset. |
| NetworkScan.RangeIsRequested | internal/gateway/probe_handler.go:384-389 | The corrected range is the hosts from 1 to 254 that are not before the requested start and, where the requested end is one of 1 to 254, not after it. |
| NetworkScan.AcceptedReportsExactly | internal/gateway/probe_handler.go:384-442 | What was collected lists exactly the pairs of a listed port and a host asked for by the requested start and end that accept a dial, each as often as its port is listed. |
| NetworkScan.ProbeExecNetworkScan | internal/gateway/probe_handler.go:366-444 | The handler fails exactly when there is no subnet or no port; otherwise, under any schedule, it reports every port of the list on every host i of 1 to 254 with start <= i, and i <= end where the end is one of 1 to 254, that accepts a dial, as often as the port is listed, and nothing else. |
| RegisterScan.ReadChunk | internal/gateway/probe_handler.go:332-345 | The inner loop appends the non-zero registers of one reply with their addresses, and nothing for a failed read. |
| RegisterScan.CapExactly | internal/gateway/probe_handler.go:305-307 | For all 64-bit bounds the capped end is the intended one, at most 1000 after the start, exactly when the span does not overflow 64 bits or wraps around to at most 1000. |
| RegisterScan.CapSkipped | internal/gateway/probe_handler.go:305-307 | A span of 2^63 is not capped. |
| RegisterScan.CapMovesEnd | internal/gateway/probe_handler.go:305-307 | A range that ends 2^63 + 1 before its start becomes one of 1001 registers. |
| RegisterScan.ScanRange | internal/gateway/probe_handler.go:298-353 | The device read is the input registers for the kind "input", or for no kind and holding switched off, and the holding registers otherwise; the chunk loop, with cap and announced total in 64-bit arithmetic, finds what reading the chunks in order finds, and reports one progress message per chunk with its bounds, its number, the total and how many registers were found before it. |
| RegisterScan.ChunksPartition | internal/gateway/probe_handler.go:320-331 | The chunks partition the range into consecutive pieces of 1 to 50 registers, at most 21 within the cap; their number is the announced total exactly when the span and one more chunk fit into 64 bits. |
| RegisterScan.CountsAdd | internal/gateway/probe_handler.go:327-347 | The running count in the messages starts at zero and grows from one to the next by what the chunk between them gave. |
| RegisterScan.AddressFits | internal/gateway/probe_handler.go:323-326 | Up to 50 short of the largest 64-bit integer the loop never wraps around. |
| RegisterScan.AddressInOneChunk | internal/gateway/probe_handler.go:323-331 | Every address of the range lies in exactly one chunk. |
| RegisterScan.AnnouncedTotal | internal/gateway/probe_handler.go:305-331 | For all 64-bit bounds every message announces the number of messages there will be exactly when there are none or the requested end lies less than 2^63 after the start. |
| RegisterScan.NegativeTotal | internal/gateway/probe_handler.go:321 | From -2^62 to 2^62 the number announced is -184467440737095515. |
| RegisterScan.FoundExactlyPresent | internal/gateway/probe_handler.go:323-347 | An entry is found exactly when its register lies in range, is non-zero and its chunk is readable. |
| RegisterScan.ScanFindsExactly | internal/gateway/probe_handler.go:319-347 | For 0 <= start and end <= 65535 and any pattern of failing chunks, the result is the ascending list of exactly the non-zero registers of the readable chunks. |
| Registers.PackRegisters | internal/modbus/client.go:74-79 | The write buffer is the big-endian packing of the values. |
| Registers.PackAt | internal/modbus/client.go:74-79 | Register i occupies bytes 2i and 2i + 1 of the packing, the high one first. |
| Registers.BytesToRegisters | internal/modbus/registers.go:155-162 | The loop reads off the registers of a byte string and drops a last odd byte. |
| Registers.DecodeString | internal/modbus/registers.go:140-152 | A text field is its big-endian bytes up to the first NUL. |
| Bytes.UpToNulUnique | internal/modbus/registers.go:140-152 | The text up to the first NUL is the one prefix without a NUL that is followed by a NUL or by nothing. |
| Bytes.TrimRightUnique | internal/modbus/client.go:165 | Trimming leaves the one prefix that does not end in padding and is followed by padding only. |
| Registers.UnpackPack | internal/modbus/client.go:74-79 | Packing and reading back is the identity on register lists. |
| Registers.PackUnpack | internal/modbus/registers.go:155-162 | Reading and packing again is the identity exactly on even-length data. |
| Registers.DecodeOutOfRange | internal/modbus/registers.go:48-137 | Of the indexes each branch reads the highest is one below the type's word count; so decoding by type alone never reads past the end, and a definition does exactly when it asks for fewer words than its type has and gets them. |
| Bits.ShiftOrIsValue | internal/modbus/registers.go:125-137 | Shifting words into place and or-ing them, digit by digit, gives their positional value and no other number. |
| Registers.DecodedBits | internal/modbus/registers.go:125-137 | In either word order the decoded number is the one whose binary digits are those of the shifts and ors. |
| Registers.Decodes16 | internal/modbus/registers.go:96-99 | A U16 is its first register, an I16 the signed number congruent to it. |
| Registers.Decodes32 | internal/modbus/registers.go:100-106 | A U32 has the digits of the first two registers shifted and or-ed in the given word order, an I32 is the signed number congruent to it, and an F32 has those bits; further registers are ignored. |
| Registers.Decodes64 | internal/modbus/registers.go:107-108 | A U64 is the signed 64-bit number congruent to the one with the digits of the first four registers in the given word order. |
| Registers.DecodeRefuses | internal/modbus/registers.go:89-111 | Too few registers is the first error, and text is refused exactly when there are enough. |
| Registers.U32Bijection | internal/modbus/registers.go:125-130 | Two big-endian words and the numbers below 2^32 correspond one to one. |
| Registers.U64Bijection | internal/modbus/registers.go:132-137 | Four big-endian words and the numbers below 2^64 correspond one to one. |
| Registers.LittleIsReversedBig | internal/modbus/registers.go:125-137 | Little word order is big word order on the reversed registers. |
| Registers.SignedUnique | internal/modbus/registers.go:98-108 | A signed decoding is the unique number of the signed range congruent to the raw one. |
| Registers.LuaAgrees32 | internal/luarunner/decode.go:24-60 | Any numbers with the digits of the helpers' shifts and ors, and any signed ones congruent to them, are what the register decoder gives, on every 16 and 32-bit integer in both word orders. |
| Registers.LuaAgrees64 | internal/luarunner/decode.go:74-82 | On U64 the number with the helper's digits is the register decoder's exactly while the top word is below 0x8000; above it the decoder, which goes through int64, is 2^64 lower. |
| DeviceIdentification.ParseObjects | internal/modbus/client.go:154-185 | The object loop stays in bounds on arbitrary bytes and stores the objects one after another, stopping at the first incomplete one or after the announced number. |
| DeviceIdentification.ReadDeviceIdentification | internal/modbus/client.go:136-186 | Every error branch, in order, and otherwise the parse of the bytes after the six header bytes. |
| DeviceIdentification.LongestRun | internal/modbus/client.go:158-166 | The parser consumes exactly the longest run of at most that many complete objects: the runs present are the prefixes of what it takes. |
| DeviceIdentification.LastValueWins | internal/modbus/client.go:165-183 | Per id 0 to 6 the last value counts, with trailing NULs removed; other ids change nothing. |
| DeviceIdentification.RoundTrip | internal/modbus/client.go:154-185 | Serialising an object list (section 6.21 of the MODBUS Application Protocol Specification V1.1b3) and parsing it gives the list back, whatever bytes trail. |
| DeviceIdentification.Truncated | internal/modbus/client.go:158-164 | A response cut short yields the fields of a prefix of its object list: the longest that still fits. |
| SunSpec.TryBase | internal/modbus/client.go:213-273 | One base yields information exactly when a valid, non-blank common model is readable there, and then the four texts of it. |
| SunSpec.CommonModelIff | internal/modbus/client.go:213-273 | On any register memory: a common model is found at a base exactly when its 68 registers can be read, they begin with 0x5375, 0x6E53, 1 and a length of at least 64, and manufacturer, model or serial number has something other than spaces before its first NUL. |
| SunSpec.Discover | internal/modbus/client.go:200-211 | For any partially readable device: the first listed base with a valid, non-blank common model, or none if no base has one. |
| SunSpec.DiscoveredUnique | internal/modbus/client.go:200-211 | That description fixes the result. |
| SunSpec.DiscoveredWhere | internal/modbus/client.go:200-211 | Nothing is discovered exactly when neither 40000 nor 50000 has a common model; 40000 comes first. |
| SunSpec.FieldRoundTrip | internal/modbus/client.go:257 | A padded field reads back as the text put in exactly when the text has no NUL and does not end in a space. |
| SunSpec.DiscoverServed | internal/modbus/client.go:200-273 | Writing a common block (SunSpec Information Model Specification, model 1) at a listed base and discovering it returns the four strings, if no earlier base serves one. |
| SunSpec.DetectDevice | internal/gateway/probe_handler.go:174-227 | The probe's outcomes, branch by branch, with vendor and model read only behind the marker. |
| SunSpec.ReadingsAgree | internal/gateway/probe_handler.go:209-214 | Cutting at the first NUL before trimming and trimming alone read the same text exactly when only padding follows the first NUL. |
| SunSpec.DetectAgrees | internal/gateway/probe_handler.go:207-224 | On a common model at 40000 the probe's vendor and model are the client's exactly when those fields have no text after a NUL. |
| SunSpec.DetectAgreesOnPadded | internal/gateway/probe_handler.go:207-224 | On fields that hold clean texts padded with NULs or spaces they always agree. |
| SunSpec.DetectDisagrees | internal/gateway/probe_handler.go:209-214 | A served manufacturer field that begins with A, NUL, B is one on which they differ. |
| Watchdog.Watchdog.constructor | internal/gateway/watchdog.go:20-28 | A positive timeout is taken as it is, any other becomes 60 seconds; a new watchdog was never fed. |
| Watchdog.Watchdog.Check | internal/gateway/watchdog.go:48-65 | One tick: the new latch, and whether the alarm is raised. |
| Watchdog.Watchdog.Run | internal/gateway/watchdog.go:38-68 | Over any sequence of feeds and ticks the loop raises alarms at exactly the events the specification names, in order. |
| Watchdog.FiresOnEdge | internal/gateway/watchdog.go:57-65 | A tick raises the alarm exactly when it finds the last heartbeat too old and the tick before it did not: stated on the history, without the latch. |
| Watchdog.NeverBeforeFirstFeed | internal/gateway/watchdog.go:53-55 | A watchdog that was never fed never fires. |
| Watchdog.AtMostOncePerGap | internal/gateway/watchdog.go:57-65 | However ticks are delayed, a gap between two feeds raises at most one alarm. |
| Watchdog.FiringsApart | internal/gateway/watchdog.go:57-65 | Any two alarms are more than the timeout apart. |
| Watchdog.GapFiresIff | internal/gateway/watchdog.go:57-65 | With delayed ticks a gap raises its alarm exactly when some tick in it is late and the latch was clear on entry or cleared by a tick of the gap. |
| Watchdog.SwallowedAlarm | internal/gateway/watchdog.go:57-65 | A run in which a delayed tick swallows an alarm: a feed alone does not re-arm the latch. |
| Watchdog.PunctualGapFiresIff | internal/gateway/watchdog.go:39-65 | With ticks at the period timeout/4 and timeout >= 4, every feed re-arms: a gap raises an alarm exactly when some tick in it is late. |
| Watchdog.PunctualLatency | internal/gateway/watchdog.go:39-61 | With punctual ticks an alarm comes after the timeout and at most timeout/4 later than that. |
| Watchdog.SilenceRaises | internal/gateway/watchdog.go:39-61 | With punctual ticks, if no heartbeat comes for the timeout and one period and the watchdog still ticks beyond the timeout, the alarm is raised. |
| Control.ControlSubscriber.Setup | internal/gateway/control.go:47-72 | Both subscriptions are made or, if the broker refuses either, none is left. |
| Control.ControlSubscriber.Close | internal/gateway/control.go:151-155 | Closing gives back every subscription. |
| Control.ControlSubscriber.ReceiveCommand | internal/gateway/control.go:76-93 | The callback up to where it needs the VM: a command is dropped, refused with one acknowledgment, or acknowledged and kept. |
| Control.ControlSubscriber.CallDriver | internal/gateway/control.go:95-122 | The rest of it: one driver call with the kept command, then the acknowledgment its outcome asks for. |
| Control.ControlSubscriber.HandleCommand | internal/gateway/control.go:76-123 | An uninterrupted callback: the acknowledgments and the driver call in every branch, for a link that is up or down at either moment. |
| Control.ControlSubscriber.Run | internal/gateway/control.go:30-148 | Every interleaving of command callbacks, which may wait for the VM half way, heartbeats, ticks and default-mode callbacks publishes and calls exactly what the specification functions say. |
| Control.ConnectedPublishesAll | internal/gateway/control.go:126-148 | While connected every acknowledgment is published. |
| Control.PublishedIffUp | internal/gateway/control.go:126-129 | The acknowledgment an event asks for is published exactly if the link is up at that moment; it is never made up for later. |
| Control.PublishedIsSubsequence | internal/gateway/control.go:126-129 | Whatever the link does, what is published is a subsequence of the full stream. |
| Common.SubsequencePlaces | internal/gateway/control.go:126-129 | For a subsequence there are increasing places in the longer list where its elements stand. |
| Control.StreamIsBlocks | internal/gateway/control.go:85-122 | Blocks never mix: the stream is the completed blocks and at most the start of the one command that waits for the VM. |
| Control.StreamRoundTrip | internal/gateway/control.go:85-122 | The completed part is a concatenation of blocks [failed], [ack, executed] or [ack, failed] that a reader can take apart again; the references read, with the id of a command that still waits, are the ids of the well-formed commands received, in order. |
| Control.EveryCommandReported | internal/gateway/control.go:76-122 | Every well-formed command that is received gets its report, in the order of receipt, but for the one that waits for the VM; and nothing else is reported. |
| Control.CommandedAreAnswered | internal/gateway/control.go:105-122 | `driver_command` is called for exactly the commands answered with two acknowledgments, in the same order. |
| Control.ExecutedIff | internal/gateway/control.go:105-122 | The second acknowledgment of a command says "executed" exactly when its driver call returned neither an error nor false, and "failed" otherwise. |
| Control.CheckedBeforeCalled | internal/gateway/control.go:85-110 | Every call was made for a well-formed command that was received before and was unexpired when it was checked. |
| Control.ExpiredAtCallIff | internal/gateway/control.go:85-110 | The driver is called after a command's expiry exactly when the command expired between its check and the call: 0 < expiresAt and checked at or before expiresAt, called after it. |
| Control.LateCall | internal/gateway/control.go:85-110 | Runs in which that happens, for every command with an expiry, every outcome and every delay. |
| Control.DefaultsAreAlarms | internal/gateway/control.go:39-45 | The default-mode calls, with one whose callback may still wait for the VM, are the watchdog's alarms over heartbeats and ticks. |
| Control.CommandsDoNotFeed | internal/gateway/control.go:39-62 | Two runs that are the same once commands, driver calls and callbacks are taken out enter default mode for the same alarms; at most the last one's callback waits in one and not in the other. |
| Control.TickRaisesIff | internal/gateway/watchdog.go:48-65 | In a run with any commands in between, a tick raises an alarm exactly when the last heartbeat event before it is more than the timeout old and the tick before it did not find that. |
| Control.DefaultsExactly | internal/gateway/control.go:39-45 | The default-mode calls, with one whose callback may still wait, are made for exactly the ticks that raise an alarm, in order. |
| Control.Overlap | internal/gateway/control.go:30-123 | Such overlaps exist: while a command waits for the VM a silence can be noticed and default mode entered first. |
| RuntimeLocks.ProgramDisciplined | internal/luarunner/runtime.go:92-181 | Whatever runtime methods a goroutine calls, host functions included: the VM is touched only under `mu`, the data only under `udMu`, and nothing is acquired under `udMu`. |
| RuntimeLocks.CallDoes | internal/luarunner/runtime.go:92-181 | A call changes the context data exactly if it sets user data or its driver code calls a host function that does, reads them correspondingly, and touches the VM unless it only gets or sets user data. |
| RuntimeLocks.ProgramDoes | internal/luarunner/runtime.go:92-181 | A goroutine changes the data at some point exactly if one of its calls asks for it. |
| RuntimeLocks.Exclusion | internal/luarunner/runtime.go:13-25 | In every interleaving of any number of goroutines at most one is about to use the VM, and one that is about to change the context data is the only one about to read or change them. |
| RuntimeLocks.WaitingRaisesRank | internal/luarunner/runtime.go:19-23 | Waiting goes only towards goroutines closer to moving. |
| RuntimeLocks.NoCyclicWait | internal/luarunner/runtime.go:19-23 | No reachable state has a cyclic wait. |
| RuntimeLocks.RunsFinish | internal/luarunner/runtime.go:103-181 | Every run is finite, and one that cannot go on has finished all calls with both locks free. |
| RuntimeLocks.Runtime.Move | internal/luarunner/runtime.go:103-181 | One lock operation of one goroutine refines the step of the machine, a writer's announcement included. |
| RuntimeLocks.Runtime.RunAll | internal/luarunner/runtime.go:132-181 | Poll loop, command callbacks and watchdog callbacks, under any schedule, all finish and leave both locks free. |
| Subjects.SplitPlain | internal/messaging/subjects.go:8-35 | Splitting any builder's subject at its dots gives back its tokens, for dot-free tokens. |
| Subjects.TelemetryRoundTrip | internal/messaging/subjects.go:8-10 | A telemetry subject gives gateway, device and DER back to the monitor exactly when none of the three contains a dot. |
| Subjects.PrintSame | internal/messaging/subjects.go:8-35 | Two calls, of one builder or of two and with any tokens, print the same subject exactly when their dot-separated pieces are the same. |
| Subjects.PrintInjective | internal/messaging/subjects.go:8-35 | Under dot-free tokens no two different calls, of one builder or of two, print the same subject. |
| Subjects.DottedCollision | internal/messaging/subjects.go:8-22 | Under dotted tokens two calls of one builder can. |
| Subjects.RoutePlain | internal/gateway/fleet.go:79-128 | Of everything the builders print under dot-free tokens only telemetry reaches the telemetry branch, with its own tokens, and only gateway state the state branch; the node's own is ignored. |
| Subjects.RoutePrinted | internal/gateway/fleet.go:79-128 | For all tokens and serials: a subject reaches the branch it is meant for exactly when its gateway has no dot and is not the node's own, telemetry has dot-free tokens, and the tokens of a control subject do not look like telemetry. |
| Subjects.ControlReadAsTelemetry | internal/gateway/fleet.go:116-128 | Exactly which control subjects, with any tokens, reach the telemetry branch. |
| Subjects.DottedSerialMisroutes | internal/gateway/fleet.go:79-113 | A dotted serial turns telemetry into the state of another gateway. |
| Subjects.DottedDeviceMisroutes | internal/gateway/fleet.go:116-128 | A dotted device name turns its commands into readings of another device. |
| Subjects.RouteJoined | internal/gateway/fleet.go:75-128 | The branch of every subject there is, by its dot-separated pieces: ignored, response, state, reading with its tokens, or an entry only. |
| Subjects.ResponsesDispatched | internal/gateway/fleet.go:92-95 | Another node's responses subject is dispatched, the node's own is ignored. |
| FleetLog.FleetIsHistory | internal/gateway/fleet.go:75-143 | After any log of messages: a gateway is present exactly when some message names it, and its last-seen time, its devices, theirs, and each DER's data are those of the last matching message. |
| FleetLog.LastIsLast | internal/gateway/fleet.go:75-143 | The last matching message is the one at the index after which nothing matches, or none if nothing does. |
| FleetLog.SeenWithLast | internal/gateway/fleet.go:109-120 | A gateway's last-seen time is that of the last state or telemetry message of it in the log. |
| FleetLog.HoldsLast | internal/gateway/fleet.go:135-142 | A DER holds the data of the last telemetry message about it that could be decoded. |
| FleetLog.OwnNeverAppears | internal/gateway/fleet.go:85-88 | The node's own serial is never in the fleet. |
| FleetLog.PassedOver | internal/gateway/fleet.go:79-95 | Subjects of one piece, the node's own and probe responses leave the fleet as it was. |
| FleetLog.StateApplied | internal/gateway/fleet.go:97-113 | A state message leaves the gateway present and seen, and everything else as it was. |
| FleetLog.TelemetryApplied | internal/gateway/fleet.go:115-143 | Telemetry leaves gateway and device seen and, if it can be decoded, the DER with its data; nothing else changes. |
| FleetLog.OthersNoted | internal/gateway/fleet.go:100-118 | Any other subject of another node leaves an entry for it, without a time or a device. |
| FleetLog.ResponseRoute | internal/gateway/fleet.go:92-95 | A message takes the response branch exactly when its subject has at least four pieces, is not the node's own, and goes on with hugin and responses. |
| FleetLog.ResponsesExactly | internal/gateway/fleet.go:92-95 | The dispatched messages are the log's probe responses of other nodes, in its order, none left out and none added. |
| Fleet.Observe | internal/gateway/fleet.go:51-143 | A new monitor that handles a log, in place, ends up holding what the history of the log says, for every gateway, and has dispatched exactly the log's probe responses of other nodes, in order. |
| Fleet.FleetMonitor.FindGateway | internal/gateway/fleet.go:100-107 | The entry for a gateway is found or made, before the message's kind is looked at. |
| Fleet.FleetMonitor.TouchGateway | internal/gateway/fleet.go:111 | Setting a gateway's time in place changes that gateway's time and nothing else in the nested maps. |
| Fleet.FleetMonitor.FindDevice | internal/gateway/fleet.go:125-132 | The device is found or made, and only its place in the fleet changes. |
| Fleet.FleetMonitor.TouchDevice | internal/gateway/fleet.go:133 | Setting a device's time in place changes that device's time and nothing else. |
| Fleet.FleetMonitor.StoreDer | internal/gateway/fleet.go:135-142 | A new reading replaces the DER's state; no stored data map is changed. |
| Fleet.FleetMonitor.HandleMessage | internal/gateway/fleet.go:75-143 | The handler, over shared heap objects, turns the value of the fleet into what the log specification says; probe responses are dispatched and nothing else; no data map that existed before is in its frame. |
| Fleet.FleetMonitor.Snapshot | internal/gateway/fleet.go:146-173 | A snapshot has one row per gateway, each showing it as it is, in objects of its own. |
| Fleet.FleetMonitor.SnapshotStays | internal/gateway/fleet.go:146-173 | A snapshot keeps showing the fleet as it was when taken through any messages that follow, although data maps are shared. |
| ProbeWaiters.SendsNeverBlock | internal/gateway/fleet.go:196-215 | Over any interleaving of register, lookup, send, receive, timeout and deferred delete, each channel is sent to at most once, so a send never blocks. |
| ProbeWaiters.WaitersSound | internal/gateway/fleet.go:176-194 | Every key of the waiter map belongs to a call still in progress, and a call only ever returns a response with its own id, even when ids repeat. |
| ProbeWaiters.CallLife | internal/gateway/fleet.go:176-194 | A call waits until it takes the message out of its own channel or its timer fires, and then takes its entry away; no other step changes how it stands. |
| ProbeWaiters.StaysAttached | internal/gateway/fleet.go:178-186 | A waiting call stays within reach of responses across a step exactly when no other call of the same id registers or finishes while it is registered. |
| ProbeWaiters.DetachedForGood | internal/gateway/fleet.go:176-215 | A call that is out of reach stays so: it can only time out. |
| ProbeWaiters.DistinctNeverLost | internal/gateway/fleet.go:176-215 | While outstanding ids are distinct no waiting call is ever out of reach. |
| ProbeWaiters.DispatchReaches | internal/gateway/fleet.go:203-214 | While outstanding ids are distinct a response that is dispatched goes to the call waiting under its id, unless one already has. |
| ProbeWaiters.RepeatedIdCutsOff | internal/gateway/fleet.go:178-186 | With a repeated id the first caller's deferred delete cuts the second one off. |
| ProbeWaiters.ProbeMonitor.Register | internal/gateway/fleet.go:177-180 | Registering puts a new empty channel under the id, displacing an older one. |
| ProbeWaiters.ProbeMonitor.Lookup | internal/gateway/fleet.go:198-209 | The dispatcher takes the entry out of the map before it sends; an empty or unknown id changes nothing. |
| ProbeWaiters.ProbeMonitor.Send | internal/gateway/fleet.go:211-213 | A send under way always finds its one-slot channel free. |
| ProbeWaiters.ProbeMonitor.DispatchProbeResponse | internal/gateway/fleet.go:196-215 | An uninterrupted dispatch fills the channel registered under the response's id, removes that entry, and changes nothing else. |
| ProbeWaiters.FirstForExactly | internal/gateway/fleet.go:176-215 | The response a call returns is the first of those dispatched that carries its id. |
| ProbeWaiters.IdsExactly | internal/gateway/fleet.go:196-209 | The entries taken out of the map are those under the ids the dispatched responses carry. |
| ProbeWaiters.ProbeMonitor.WaitForProbeResponse | internal/gateway/fleet.go:176-194 | A call returns the first response dispatched under its id, or times out if there is none; it leaves no entry of its own, and of the others exactly those the responses name are gone. |
| DriverStore.FileInjective | internal/drivers/loader.go:112-174 | Two source or manifest paths are the same only if directory and name are. |
| DriverStore.LoadedExactly | internal/drivers/loader.go:35-90 | What a load gives, file by file: the names and texts of the directory chosen, each with its manifest; a missing or unreadable manifest gives the name only, one without a name takes the file's, one with another name keeps it. |
| DriverStore.StrayManifestInvisible | internal/drivers/loader.go:78-87 | A manifest without its Lua file, as a failed create leaves it, is not seen by a load. |
| DriverStore.LoadedAfterOwnWrite | internal/drivers/loader.go:65-88 | Writing a source file where a load looks changes what the load finds under that name alone. |
| DriverStore.LoadedAfterOtherWrite | internal/drivers/loader.go:65-70 | Writing into lua/ beside a populated drivers/ is invisible to a load. |
| DriverStore.SaveStep | internal/drivers/loader.go:112-127 | Saving keeps memory and disk in agreement and the directory's layout as it is. |
| DriverStore.SaveExactly | internal/drivers/loader.go:112-127 | A save replaces the text at the driver's path on disk and in memory and nothing else, or, for an unknown name or a failed write, changes nothing. |
| DriverStore.CreateExactly | internal/drivers/loader.go:130-174 | The directories, the manifest and the source file that each failure of a create leaves, and the driver in memory if there is none. |
| DriverStore.FailedCreateStep | internal/drivers/loader.go:130-165 | A create that fails anywhere, between manifest and source included, changes neither memory nor what a load would find. |
| DriverStore.CreateLoaded | internal/drivers/loader.go:138-173 | A successful create is what a load then finds, manifest, source and path, unless lua/ and a populated drivers/ coexist; then the load finds nothing new. |
| DriverStore.RunConsistent | internal/drivers/loader.go:35-174 | After any run of loads, saves and creates, failed ones included, the names a fresh load would not find are exactly those created since the last load where both layouts are present, and none otherwise; everything else is in memory as a load would find it. |
| DriverStore.SyncedIff | internal/drivers/loader.go:35-174 | From a synced store: a fresh load equals memory exactly when the layouts do not coexist or nothing was created since a load. |
| DriverStore.RetryHeals | internal/drivers/loader.go:130-174 | A create that failed anywhere leaves nothing in the way of the next one under the same name. |
| DriverStore.CreatedIsLost | internal/drivers/loader.go:138-143 | With drivers/a.lua and an empty lua/ a created driver is in memory but gone after a restart. |
| DriverStore.Store.ReadManifests | internal/drivers/loader.go:45-62 | The manifests that parse, by file name, with the file name where they give none. |
| DriverStore.Store.Load | internal/drivers/loader.go:35-90 | Loading replaces the map by new objects with what the directory holds, drivers/ before lua/. |
| DriverStore.Store.Get | internal/drivers/loader.go:104-109 | The driver of that name, if there is one. |
| DriverStore.Store.SaveSource | internal/drivers/loader.go:112-127 | The file and then the driver object are updated in place, or neither; the map keeps its objects. |
| DriverStore.Store.CreateDriver | internal/drivers/loader.go:130-174 | Every outcome, with what each leaves on disk and in memory. |
| DriverStore.Store.Serve | internal/drivers/loader.go:35-174 | A store that loads and then serves any calls ends in sync exactly under the condition of SyncedIff. |
| DeviceLifecycle.WaitAfterFailures | internal/gateway/manager.go:273-288 | The wait is a minute after at least ten failed polls in a row, ten seconds after fewer, and always between 100 ms and a minute. |
| DeviceLifecycle.WaitAfterSuccess | internal/gateway/manager.go:256-318 | After a good poll the wait is what the last accepted poll asked for, 5 seconds if none was accepted. |
| DeviceLifecycle.IntervalExactly | internal/gateway/manager.go:256-311 | The interval is the last accepted one, 5 seconds before the first; failed, silent and rejected polls leave it. |
| DeviceLifecycle.RequestAcceptedIff | internal/gateway/manager.go:306-310 | For every poll result: it sets the interval exactly when it is a positive number whose 64-bit product in nanoseconds lies in the window, and then to that product; it is taken as it was meant exactly for 100 to 60000 whole milliseconds, and otherwise than meant exactly when the product wraps around into the window. |
| DeviceLifecycle.FirstWrap | internal/gateway/manager.go:307-308 | The least positive request accepted otherwise than meant is 18446744073810 ms, taken as about 100 ms. |
| DeviceLifecycle.StepInv | internal/gateway/manager.go:96-356 | Every event of every generation keeps the lifecycle invariant. |
| DeviceLifecycle.OneGenerationHolds | internal/gateway/manager.go:132-187 | Across all generations only the latest can hold a VM, a bridge, subscriptions or watchdogs. |
| DeviceLifecycle.ConnectedIsClean | internal/gateway/manager.go:216-297 | In every state a reader of the status can see, connected goes with an empty error and with a generation that passed setup. |
| DeviceLifecycle.ErrorShown | internal/gateway/manager.go:102-278 | In every reachable state a start-up step or a poll that fails shows its error at once, on a device that then reads as not connected, and sends the generation where it belongs: back, into the retry wait, or into the wait after a failed poll. |
| DeviceLifecycle.RetryEnds | internal/gateway/manager.go:344-356 | The retry wait ends with exactly one new generation or, by cancellation, with none. |
| DeviceLifecycle.TeardownInOrder | internal/gateway/manager.go:171-251 | What a generation acquired is given back in the order subscriptions, watchdogs, VM, bridge, all of it once it has returned. |
| DeviceLifecycle.DeferGivesBack | internal/gateway/manager.go:171-251 | Each deferred call gives back what was acquired last. |
| DeviceLifecycle.ReturnedGivesBack | internal/gateway/manager.go:171-251 | What a returned generation has given back, by its exit: subscriptions, watchdogs, VM and bridge from the loop, VM and bridge if the driver does not load, the bridge if the VM does not start, nothing before that. |
| DeviceLifecycle.LoopHoldsAll | internal/gateway/manager.go:171-251 | While it polls or waits a generation holds bridge, VM, watchdogs and subscriptions and has given back nothing. |
| DeviceLifecycle.ConnectedAfterStop | internal/gateway/manager.go:259-318 | A generation that has left leaves the device shown as connected exactly when the stop reached it in the wait after a good poll. |
| DeviceLifecycle.ConnectedForever | internal/gateway/manager.go:313-316 | Such a run exists. |
| ManagedDevice.ManagedDevice.PollOnce | internal/gateway/manager.go:271-318 | One pass through the loop: error count, status, interval and the wait, which after a good poll is the interval it asked for if that is accepted and the one before otherwise, and after a failed one 10 seconds, or a minute from the tenth on. |
| ManagedDevice.WaitsPaced | internal/gateway/manager.go:256-318 | The waits of a whole loop, poll by poll: a minute after ten failures in a row, ten seconds after fewer, otherwise what the last accepted poll asked for or 5 seconds. |
| ManagedDevice.ManagedDevice.PollUntilStop | internal/gateway/manager.go:256-319 | The loop waits after each poll as long as the history demands, and leaves at the top or in a wait as the stop has it; under a cancelled context it does not poll. |
| ManagedDevice.ManagedDevice.PollLoop | internal/gateway/manager.go:256-319 | Its exit, final status and error are those of the last poll and the place of the stop. |
| ManagedDevice.ManagedDevice.RunDefers | internal/gateway/manager.go:171-251 | The deferred calls run in the order subscriptions, watchdogs, VM, bridge. |
| ManagedDevice.ManagedDevice.LoadDriver | internal/gateway/manager.go:100-194 | Start-up to the loaded driver: on each error the status, the exit and exactly what is already held. |
| ManagedDevice.ManagedDevice.RetryLoop | internal/gateway/manager.go:344-356 | A failed connection waits and hands over to one new generation, or gives up if the device is or gets cancelled, holding nothing. |
| ManagedDevice.OutcomeExactly | internal/gateway/manager.go:96-320 | Which exit and which error belong to which start-up errors, polls and stop. |
| ManagedDevice.ManagedDevice.RunDevice | internal/gateway/manager.go:96-320 | One generation, from any mix of errors, polls and stop, under a context that may be cancelled before it starts: its exit, the status it leaves, its waits as the polls paced them, and its teardown; under a cancelled context it neither hands over nor waits. |
| ManagedDevice.ManagedDevice.Manage | internal/gateway/manager.go:87-93 | Generations follow one another until the first that does not hand over, whose outcome the status shows. |
| Jwt.PaddedRoundTrip | internal/identity/jwt.go:61-66 | Left-padding a number below 2^256 to 32 bytes and reading it back is the identity, and no other 32 bytes read as it (section 3.4 of RFC 7518). |
| Jwt.FromBytesJoin | internal/identity/jwt.go:84-85 | Big-endian: the bytes in front count 256 times for every byte behind them. |
| Jwt.SplitJwt | internal/identity/jwt.go:95-111 | Splitting succeeds exactly for two dots, and then gives the three dot-free parts. |
| Text.SplitUnique | internal/identity/jwt.go:95-111 | The dot-free parts that join back to a text are unique. |
| Jwt.SignatureBytes | internal/identity/jwt.go:62-66 | The two numbers, right-aligned in their halves of a zeroed 64-byte buffer. |
| Jwt.GenerateAuthJwt | internal/identity/jwt.go:50-69 | The token is header, payload and padded signature, each encoded, joined by dots (section 7.1 of RFC 7515). |
| Jwt.VerifyJwt | internal/identity/jwt.go:73-93 | Every error branch in order, and otherwise the check of what the token's parts say. |
| Jwt.BadFormatIff | internal/identity/jwt.go:73-77 | The format is refused exactly when the token does not have two dots. |
| Jwt.JudgeExactly | internal/identity/jwt.go:73-93 | For any three parts: a third part that cannot be decoded or is not 64 bytes long is refused; otherwise the halves of it are checked against the first two parts as they came. |
| Jwt.VerifyGenerated | internal/identity/jwt.go:50-92 | Verifying a generated token asks about exactly the input that was signed and exactly its two numbers. |
| Jwt.TokenInjective | internal/identity/jwt.go:50-69 | Different contents or signatures give different tokens. |

## Left out

- NATS, MQTT, HTTP and TCP themselves, the Modbus transport and the embedded server: calls into libraries.
- The Lua interpreter, its sandbox and `Init`'s host table: a driver call is an arbitrary result, and the runtime's methods are modelled by their lock operations and accesses. That the VM is not closed while a command callback builds its table is assumed.
- Floating point: `DecodeValue` is modelled up to its integer, F32 up to its bit pattern; `Scale` and the Lua scale helper are not modelled.
- RegisterScan.ScanRange: the loop's own address arithmetic is unbounded, so a range that reaches within 50 of 2^63, where the address wraps around and the loop need not end, is not modelled (`AddressFits` says where it is); cap and announced total are in 64 bits.
- How long a dial may take: its timeout is part of its outcome.
- JSON payloads of probes and progress messages: the data in them is modelled, not their text.
- `ToFloat64` on poll results: a poll result is an error, nothing, or a number with its conversion to a 64-bit integer, which the platform decides out of range.
- Read errors of single files during `Load` (such files are skipped), and manifest fields other than the name (carried as one value).
- The lookup of a driver outside the store, `driver_init`, `driver_cleanup` and the make of a device: they change nothing the lifecycle invariant speaks of.
- The waits of the lifecycle as times: the model has their lengths, and a wait ends by a timer or by cancellation.
- Devices with the same serial number in one configuration: each device is modelled on its own.
- The order in which `Snapshot` and the store's maps are iterated, which Go leaves open: the models pick any.
- `DERState` objects are immutable values here, because the handler replaces them and never changes one; their data maps are shared objects.
- Telemetry mapping, the vendor map, protocol detection, the MQTT buffer, driver runs by probe, REST probes, the deploy probe's defaults, flags and logging: conversions and calls without state of their own.
