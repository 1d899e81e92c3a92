# Sensor HAL, notification LED and ramdump status: a Dafny model

The project models the parts of a phone's hardware layer where state, budgets and threads meet: the event pipeline of
the sensor HAL (`sensors/`), the arbiter of the notification LED (`liblights/lights.c`) and the ramdump status block
(`mrdump/mrdump_status.c`). `dafny verify dfyconfig.toml` checks all of it.

| module | models |
|---|---|
| `EventRing` | the 2N-slot event ring, as a queue of at most N events, with the kernel's writes and the copy-back in place |
| `Stream`, `InputEvents`, `PacketTimestamp`, `RawSample`, `BackDating` | runs of state machines, event values, split 64-bit timestamps, the sender's samples, made-up timestamps |
| `EventFields` | what a list of input events says about each field of a sample, without decoding it step by step |
| `Acceleration`, `AccelerationCodec`, `AccelerationPacket` | the accelerometer's packet decoder (the gyroscope's is the same), the sender's side of it, and what any packet at all delivers |
| `Magnetic`, `MagneticCodec`, `MagneticPacket` | the two-sensor decoder whose SYN reports may be cut short, the sender's side of it, and what any report at all delivers |
| `BatchFlush` | the batch driver without a device: flush counters and the pending flag |
| `BatchDevice` | the batch driver with a device: the record FIFO and the flush completions |
| `WakeProtocol`, `WakeRefinement` | flushing threads, polling thread, flag and wake pipe as a transition system; its link to `BatchFlush` |
| `PollContext`, `DriverRefinement` | `pollEvents` over the batch driver and any number of ring drivers; the two real decoders as such drivers |
| `Hwmsen`, `Humidity` | the two drivers that make up back-dated samples |
| `Lights` | the three LEDs behind a cached status |
| `CStrings`, `RamDump` | `strtok_r` in place, the status parser, and the clearing of the block |

Main results, each over all inputs or all runs:

* **Chunking independence.** However the kernel splits its reads and whatever budgets callers give, the accelerometer's
  state and output are those of a one-event-at-a-time decoder over the events consumed, and consumed plus queued is
  all that arrived (`AccelerationSensor.Valid`, kept by every method). The magnetometer has the same property although a
  budget may end between its two sensors in the middle of a report (`MagneticSensor.Valid`).
* **Round trips.** Packets of any list of samples, with unchanged fields left out at will, decode to exactly the samples that
  must come out, from any pending state that holds what the first packet leaves out, and hence from a new sensor
  (`AccelerationCodec.RoundTrip`, `FirstSession`). For the magnetometer a sample comes out if and only if it is past its window
  and something besides its timestamp went through (`MagneticCodec.RoundTrip`).
* **Any packet at all.** For any events between two SYNs, complete or not, what comes out and what stays pending is given in terms
  of the events alone: which field was given last, and which event came last (`PacketDelivers`, `ReportDelivers`). Half a sample
  is never delivered (`IncompleteIsDropped`), and a sensor that is off is silent (`OffWhenMadeOrSwitchedOff`).
* **No lost wake-up, and exactly when there is one.** The pending flag is set, tested and dropped without a lock. A run strands no
  request if and only if the flag is never dropped over a request whose threads have all set it (`StrandedExactlyByBadDrop`), and
  that is so if and only if no scan that was raced drops the flag, whatever the flushing threads do
  (`SafeExactlyWithoutRacedDrop`). Such runs lose no wake-up (`NoLostWakeup`); with atomic reads every run is one
  (`AtomicReadsLoseNoWakeup`). A race strands its flush, whatever the poller does alone from then on, if and only if the scan it
  ran into was going to drop the flag (`RaceStrandsExactly`); then the poller ends up waiting (`RaceStrandsFlush`,
  `StrandedStays`). Races behind the scan, and between the last test and the store, can be reached (`RaceIsReachable`,
  `LastHandleRaceIsReachable`).
* **Polling.** Budget and output add up, handles are shifted once, a normal return is never empty, completions owed come
  first, and `poll()` is reached only with every ring empty (`PollEvents`, `Wait`). Over any run of calls, what the poller got
  from a driver is its reference decoder's output over what was read from the kernel, all of it whenever the ring is empty
  (`Poller.Valid`); the accelerometer and the magnetometer are such drivers (`ReadAcceleration`, `ReadMagnetic`). Each call of
  `poll()` ends in the one way it can, given what it is answered (`EndsThere`, `EndsOneWay`): over a whole `pollEvents`, an answer
  that brings input or a flush is never slept through (`NothingSleptThrough`), and a call left waiting was brought nothing since it
  last read the drivers (`WaitingOrFailed`).
* **Conservation and order.** Flushes accepted are delivered or owed; batched data is, in order and as often, exactly the fetched
  records of a known type past their window (`DataIsExactly`);
  in a call whose queries succeed a completion overtakes a record queued before it if and only if both were posted after the last
  query (`BatchDevice.BatchSensor.ReadEvents`); made-up timestamps never run backwards, for the humidity driver within a session,
  and a call of the legacy driver that leaves budget has served every sensor reported (`HwmsenDriver.ReadEvents`).
* **LED and ramdump.** The LEDs depend on the latest two requests only, with at most one lit at every step, and which one and how
  follows from the bytes of the colour in charge (`SetBattery`, `SetNotification`). Lines written to a status block are read back as
  the report they ask for (`WrittenIsRead`), and clearing touches 128 bytes only.

Where the code falls short of what one would expect, there is an exact condition and a run or input that meets it:

* a scan can drop the flag over a request (`SafeExactlyWithoutRacedDrop`, `RaceStrandsExactly`; reached by `RaceIsReachable`, and on
  the last handle by `LastHandleRaceIsReachable`);
* a flush completion can overtake a record queued before it: when both arrive between the last query and the read of the input
  device, and no other way unless a query fails (`BatchDevice.BatchSensor.ReadEvents`; `LateRecordIsOvertaken`); after a failed
  query completions are read all the same (`FailedQueryIsOvertaken`);
* a negative budget makes the batch driver drop its pending flag while flushes are owed (`FlagCoversOwed`;
  `NegativeBudgetLosesFlush`);
* the completeness flag only remembers the field seen last, so that a packet is delivered exactly when a low timestamp word came
  last (`PacketDelivers`; `LoneLowWordIsDelivered`, `LateFieldLosesPacket`);
* a magnetometer sample of which only the timestamp goes through is lost (`MagneticCodec.RoundTrip`; `TimestampAloneIsLost`,
  `EqualSampleIsLost`);
* the legacy driver repeats a timestamp when a gap is a whole number of delays (`FirstStampRepeats`; `StampRepeats`);
* the legacy driver steps past the end of its ring when it has budget left and an unexpected event comes last
  (`HwmsenDriver.ReadEvents`; `LoneEventOverruns`);
* the humidity driver can back-date a sample past the session before (`BackDatedPast`, `HumiditySensor.Syn`; `SessionsOverlap`);
* a blinking battery light ignores new blink times (`SetBattery`; `NewTimesAreIgnored`).

## Conventions

* Integers are unbounded. Timestamps stay within 64 bits by `MergeStaysInt64`. Sample values are kept as exact quotients; a
  cleared field is zero over its sensor's divisor.
* The input core may leave out ABS fields that did not change; both timestamp halves of a sample are taken to go through.
* A clock is a function from the number of readings taken so far. Outcomes of system calls are parameters.
* An evdev `read` is taken to return: on the real, blocking descriptor a read for left-over ring events may wait for input.
* In `PollContext` a ring driver is any that is faithful to its decoder and spends budget exactly when it emits.
* In `WakeProtocol`, `flush` counts and sets the flag in two steps, each visit of one handle by the scan is one step, and the test
  at the end of the scan and the store that drops the flag are two.
* In `Hwmsen` and `Humidity` the missed-sample quotient is exact and delays are positive when events are read.
* `memset(m_hwm_last_ts, 0, numSensors)` (sensors/Hwmsen.cpp:115) clears six bytes of forty-eight; the model starts from zero.

## Model

| member | source | states |
|---|---|---|
| EventRing.InputEventCircularReader.constructor | sensors/InputEventReader.cpp:55-62 | a new ring of any capacity is an empty queue |
| EventRing.InputEventCircularReader.Fill | sensors/InputEventReader.cpp:69-92 | appends exactly what the kernel delivered; a full ring, a failed and a torn read leave the queue unchanged; which code each returns |
| EventRing.InputEventCircularReader.KernelWrite | sensors/InputEventReader.cpp:73 | the linear write stays inside the 2N slots and changes no unread event |
| EventRing.InputEventCircularReader.Advance | sensors/InputEventReader.cpp:79-88 | moving the head and copying the overflow back appends the events written, in order |
| EventRing.InputEventCircularReader.ReadEvent | sensors/InputEventReader.cpp:94-99 | yields the oldest unread event, and none exactly when the queue is empty |
| EventRing.InputEventCircularReader.Next | sensors/InputEventReader.cpp:101-108 | drops the oldest event and records it; arrived = consumed + queued is kept |
| PacketTimestamp.MergeRebuilds | sensors/Acceleration.cpp:382-390 | both halves fit 32 bits, and merging them in either order rebuilds any 64-bit timestamp whatever was pending |
| PacketTimestamp.MergeStaysInt64 | sensors/Acceleration.cpp:382-390 | merging never leaves the 64-bit range |
| Acceleration.AccelerationSensor.constructor | sensors/Acceleration.cpp:58-78 | a new sensor is off and cleared, nothing has been decoded, and its reference run starts there |
| Acceleration.AccelerationSensor.Enable | sensors/Acceleration.cpp:187-219 | on or off as asked, and a window of 350 ms from `now` when switched on; a failed open changes nothing; switching is one item of the history |
| Acceleration.AccelerationSensor.ReadEvents | sensors/Acceleration.cpp:291-350 | keeps chunking independence; never exceeds the budget; leaves events unread only when the budget is spent; the code of a failed fill |
| Acceleration.AccelerationSensor.Drain | sensors/Acceleration.cpp:304-349 | the loop stops when the budget is spent or the ring empty, and not before |
| Acceleration.AccelerationSensor.Consume | sensors/Acceleration.cpp:304-347 | one turn advances ring, state, output and history together, in step with the reference decoder |
| Acceleration.AccelerationSensor.HandleSyn | sensors/Acceleration.cpp:312-337 | the nested branches equal the reference treatment of a SYN |
| Acceleration.AccelerationSensor.HandleEvent | sensors/Acceleration.cpp:352-399 | the in-place updates equal the reference treatment of a field |
| AccelerationCodec.RoundTrip | sensors/Acceleration.cpp:304-399 | packets of any samples, unchanged fields left out at will, decode to exactly the samples past the window, for any clock and from any pending state that holds what the first packet leaves out |
| AccelerationCodec.FirstSession | sensors/Acceleration.cpp:58-78 | the round trip from a new sensor of any divisor, switched on: a sample comes out if and only if the clock and its timestamp are past the 350 ms, even for zero fields never sent |
| AccelerationCodec.PacketDecodes | sensors/Acceleration.cpp:304-399 | one packet yields its own sample or nothing, and leaves its fields pending, when what it leaves out was pending |
| AccelerationCodec.TrailerDecodes | sensors/Acceleration.cpp:312-337 | HI, LO and SYN deliver the pending fields under the packet's own timestamp |
| AccelerationCodec.BodyDecodes | sensors/Acceleration.cpp:355-378 | the data fields end up with the sample's values if and only if those left out were pending before |
| AccelerationPacket.FieldsSettle | sensors/Acceleration.cpp:352-399 | after any events but SYN, every field holds what it was given last, and the flag stands exactly when a low timestamp word came last |
| EventFields.StampHalves | sensors/Acceleration.cpp:382-390 | after any events, each half of the pending timestamp is the one given last, or the stale one |
| AccelerationPacket.PacketDelivers | sensors/Acceleration.cpp:312-337 | any packet delivers a sample if and only if the sensor is on, the clock is past the window, a low word came last and the timestamp, or the clock for a zero one, is past the window; which sample, and exactly what stays pending |
| AccelerationPacket.OffIsSilent | sensors/Acceleration.cpp:312-337 | while the sensor is off nothing comes out, whatever arrives |
| AccelerationPacket.OffWhenMadeOrSwitchedOff | sensors/Acceleration.cpp:187-219 | that is so from the start and after every switch-off |
| AccelerationPacket.LoneLowWordIsDelivered | sensors/Acceleration.cpp:321-330 | a packet of nothing but its low timestamp word is delivered |
| AccelerationPacket.LateFieldLosesPacket | sensors/Acceleration.cpp:321-330 | a packet with a field behind its low word delivers nothing |
| Magnetic.MagneticSensor.constructor | sensors/Magnetic.cpp:60-87 | the initial slots |
| Magnetic.MagneticSensor.Enable | sensors/Magnetic.cpp:216-262 | for `en` 1 only, sets a window of 350 ms for the orientation if the handle is 2 and else for the field, and leaves the other alone; starts a new reference run from the present state, even inside a report |
| Magnetic.MagneticSensor.ReadEvents | sensors/Magnetic.cpp:356-415 | any budgets give the output of an unlimited one; budget left over means an empty ring and the reference output over all arrivals; the code of a failed fill |
| Magnetic.MagneticSensor.Refill | sensors/Magnetic.cpp:363 | new events behind the queue keep a report cut short at its front on track |
| Magnetic.MagneticSensor.Drain | sensors/Magnetic.cpp:371-409 | the loop ends, because each pass consumes an event or spends the budget, and stays on track with the reference decoder |
| Magnetic.MagneticSensor.Report | sensors/Magnetic.cpp:376-404 | budget left over means both slots had their turn; otherwise the rest of the report is kept |
| Magnetic.MagneticSensor.TakeTurn | sensors/Magnetic.cpp:383-400 | one slot's turn equals its reference turn and touches no other slot |
| Magnetic.MagneticSensor.StepOver | sensors/Magnetic.cpp:402-408 | an event is left behind only when it is dealt with completely |
| Magnetic.TurnTaken | sensors/Magnetic.cpp:380-404 | a report taken slot by slot, with a pause anywhere, is the same report |
| MagneticCodec.RoundTrip | sensors/Magnetic.cpp:371-500 | any list of reports, unchanged fields left out at will, decodes to exactly both sensors' samples that are past their windows and announced by a data field or UPDATE, field first, each with its own divisor |
| MagneticCodec.FirstSession | sensors/Magnetic.cpp:60-87 | the round trip from a new driver of any divisors and windows |
| MagneticCodec.TimestampAloneIsLost | sensors/Magnetic.cpp:469-500 | timestamp halves alone bring nothing out, from any idle state |
| MagneticCodec.EqualSampleIsLost | sensors/Magnetic.cpp:380-404 | of two equal samples without UPDATE, the second is lost however new it is |
| MagneticCodec.ReportDecodes | sensors/Magnetic.cpp:376-404 | one report yields the due samples of the sensors it carries, leaves no slot due, and leaves a sensor it does not carry alone |
| MagneticCodec.PartDecodes | sensors/Magnetic.cpp:417-500 | a sensor's events, sent or pending already, fill its own slot completely and leave the other alone; the slot is due if something besides the timestamp went through |
| MagneticPacket.FieldsSettle | sensors/Magnetic.cpp:417-500 | after any events but SYN nothing has come out, and each sensor's fields hold what they were given last, its bit is set exactly if it was announced, and its flag stands exactly when its low word came last |
| MagneticPacket.ReportDelivers | sensors/Magnetic.cpp:376-404 | any report, complete or not, delivers field then orientation, each if and only if it was announced, its low word came last and its timestamp is past its window; which sample, and exactly what stays pending |
| MagneticPacket.IncompleteIsDropped | sensors/Magnetic.cpp:383-400 | a sensor whose last event is not its low word delivers nothing |
| BatchFlush.BatchSensor.constructor | sensors/BatchSensor.cpp:56-87 | nothing owed, nothing pending |
| BatchFlush.BatchSensor.Flush | sensors/BatchSensor.cpp:269-281 | one more completion owed to the handle and to no other; the flag is set; accepted = delivered + owed is kept, per handle |
| BatchFlush.BatchSensor.ReadEvents | sensors/BatchSensor.cpp:330-348 | delivers the first completions owed, lowest handle first, as far as the budget goes, and leaves the rest owed; when the flag drops; conservation |
| BatchFlush.BatchSensor.Scan | sensors/BatchSensor.cpp:333-344 | the nested loops deliver a prefix of what is owed and end at the last handle exactly as `Clears` says |
| BatchFlush.BatchSensor.Visit | sensors/BatchSensor.cpp:335-343 | one handle is answered as far as budget and counter allow |
| BatchFlush.FlagCoversOwed | sensors/BatchSensor.cpp:333-346 | after a read the flag covers what is owed if and only if the budget was not negative, or the last handle had a request, or nothing was owed |
| BatchFlush.NegativeBudgetLosesFlush | sensors/BatchSensor.cpp:333-346 | a run of the driver: a flush of any handle but the last, then a read with budget -1, leaves it owed and the flag down |
| BatchFlush.CountOwed | sensors/BatchSensor.cpp:335 | a counter is the number of completions owed to its handle |
| BatchFlush.OneMore | sensors/BatchSensor.cpp:275-281 | one more request on a handle is one more completion owed to it, and to it alone |
| BatchFlush.OwedInOrder | sensors/BatchSensor.cpp:333-335 | completions are owed in order of their handles |
| BatchFlush.ConservedIs | sensors/BatchSensor.cpp:269-348 | conservation handle by handle is conservation of all completions owed |
| WakeProtocol.AlwaysConserved | sensors/BatchSensor.cpp:275-348 | in every interleaving, accepted = delivered + counter, per handle |
| WakeProtocol.NoLostWakeup | sensors/nusensors.cpp:525-618 | in every run that does not drop the flag too early, a waiting poller with an empty pipe has, per handle, as many threads yet to write as requests owed; with no flush in flight, an owed request means a byte in the pipe and a raised flag |
| WakeProtocol.InvRun | sensors/nusensors.cpp:548-621 | every such run keeps the protocol's invariant |
| WakeProtocol.StrandedExactlyByBadDrop | sensors/BatchSensor.cpp:275-346 | a run never has a stranded request if and only if the flag is never dropped in it over a request, of any handle, whose threads have all set it |
| WakeProtocol.RaceFreeIsSafe | sensors/BatchSensor.cpp:275-346 | a run in which no thread sets the flag, as the last of its handle, behind the scan or between its test and its store never drops the flag too early |
| WakeProtocol.SafeExactlyWithoutRacedDrop | sensors/BatchSensor.cpp:275-346 | over any run, whatever the flushing threads do, the flag is never dropped too early if and only if no scan that was raced drops it |
| WakeProtocol.TellsOn | sensors/BatchSensor.cpp:275-346 | step by step: a drop is too early exactly when its scan was raced, because a debt behind the scan lasts as long as the scan |
| WakeProtocol.AtomicReadsDoNotRace | sensors/BatchSensor.cpp:330-348 | with the driver's read atomic, test and store included, no run races |
| WakeProtocol.AtomicReadsLoseNoWakeup | sensors/nusensors.cpp:525-618 | and no wake-up is lost |
| WakeProtocol.FinishScan | sensors/BatchSensor.cpp:333-346 | left alone, a scan ends with the handles behind it as they were and the flag down exactly when it had decided, or was going to decide, to drop it |
| WakeProtocol.FinishLoop | sensors/BatchSensor.cpp:333-345 | left alone, the loop gets to its test and decides to drop the flag exactly when the budget gets it to the last handle and pays for it |
| WakeProtocol.WaitWithFlagDown | sensors/nusensors.cpp:594-618 | with the flag down, the poller empties the pipe and then waits, through a return and a new call if its budget was spent |
| WakeProtocol.RaceStrandsFlush | sensors/BatchSensor.cpp:275-346 | after a race with a scan that will drop the flag, the poller alone ends up waiting on an empty pipe with the flush stranded |
| WakeProtocol.RaceStrandsExactly | sensors/BatchSensor.cpp:275-346 | after a racing step, on any handle, every run of the poller alone that has left the scan has the flush stranded if and only if the scan had decided to drop the flag, or the budget gets it to the last handle and pays for it, or it is there already with nothing owed |
| WakeProtocol.StrandsExactly | sensors/BatchSensor.cpp:333-346 | the same from any state with a handle behind the scan that is owed more than it has threads to set the flag |
| WakeProtocol.StrandedStays | sensors/nusensors.cpp:554-618 | the poller alone never answers a stranded flush |
| WakeProtocol.RaceIsReachable | sensors/BatchSensor.cpp:275-346 | a race with a scan that will drop the flag occurs for every number of handles from two on |
| WakeProtocol.LastHandleRaceIsReachable | sensors/BatchSensor.cpp:345-346 | a race on the last handle, between test and store, occurs for every number of handles |
| WakeRefinement.ScanIsRead | sensors/BatchSensor.cpp:330-348 | the protocol's steps, undisturbed, answer, leave and flag exactly what the driver's read does, from any point of a scan |
| WakeRefinement.WholeScanIsRead | sensors/BatchSensor.cpp:330-348 | the same from the start of a scan |
| PollContext.Poller.constructor | sensors/nusensors.cpp:225-400 | a new poller has no POLLIN recorded and an empty pipe |
| PollContext.Poller.Flush | sensors/nusensors.cpp:525-546 | the public handles 1-12, 14-25, 35-38 and 41-45 are counted one lower, flagged and signalled; others are ignored |
| PollContext.Poller.ReadDriver | sensors/nusensors.cpp:559 | any turn of a ring driver that takes some of the kernel's events, spends budget exactly when it emits and stays faithful to its decoder |
| PollContext.CanRead | sensors/nusensors.cpp:559 | such a turn exists, whatever was taken from the kernel and whatever the budget |
| DriverRefinement.ReadAcceleration | sensors/Acceleration.cpp:291-350 | a read of the real accelerometer is such a turn, with its reference decoder |
| DriverRefinement.AccelerationIsFaithful | sensors/Acceleration.cpp:304-349 | what the accelerometer put out is its decoder's output over what arrived, as far as it got; all of it with an empty ring |
| DriverRefinement.TakeOverAcceleration | sensors/Acceleration.cpp:58-78 | any accelerometer with an empty ring is such a driver from then on |
| DriverRefinement.ReadMagnetic | sensors/Magnetic.cpp:356-415 | a read of the real magnetometer is such a turn, even when it cuts a report in two |
| DriverRefinement.MagneticIsFaithful | sensors/Magnetic.cpp:371-409 | the same for the magnetometer since it was last switched |
| DriverRefinement.TakeOverMagnetic | sensors/Magnetic.cpp:216-262 | a magnetometer just switched, with an empty ring, is such a driver from then on |
| PollContext.TrackTurn | sensors/nusensors.cpp:558-590 | a driver's turn, logged, keeps for every driver that what the poller got from it is what it put out |
| PollContext.Poller.Place | sensors/nusensors.cpp:575-587 | earlier slots stay, new ones hold the events with their handle shifted once |
| PollContext.Poller.ReadAll | sensors/nusensors.cpp:556-591 | budget and events add up; budget left over means all rings empty, no POLLIN recorded, no flush owed; completions come first |
| PollContext.Poller.ReadFlushes | sensors/nusensors.cpp:558-590 | the batch driver's turn delivers the completions owed |
| PollContext.Poller.ReadRings | sensors/nusensors.cpp:556-591 | keeps every driver with unread events first in line with POLLIN recorded |
| PollContext.Poller.ReadRing | sensors/nusensors.cpp:558-590 | POLLIN is forgotten only with the ring empty |
| PollContext.Poller.Wait | sensors/nusensors.cpp:599 | reached only with every ring empty; POLLIN is recorded exactly where the kernel has events |
| PollContext.Poller.Answer | sensors/nusensors.cpp:599-613 | one reply is ready if and only if a byte or input was there before or it brings input or a flush; one byte is taken off the pipe if there is one; an unready one changes nothing |
| PollContext.ReadyExactly | sensors/nusensors.cpp:599-613 | the same of any scene and reply |
| PollContext.EndsThere | sensors/nusensors.cpp:594-613 | a poller with nothing in hand waits through quiet replies only; it comes back ready at the first that finds or brings something, failing at the first failure, and stuck only when the replies run out; with events in hand it takes one reply |
| PollContext.EndsOneWay | sensors/nusensors.cpp:594-613 | given the replies, there is one such end |
| PollContext.NothingSleptThrough | sensors/nusensors.cpp:594-618 | over all calls of `poll()` in a run, no reply used up is a failure, and one that brings something ends the call it answers, as ready |
| PollContext.WaitingOrFailed | sensors/nusensors.cpp:594-618 | a run left waiting has used every reply and was brought nothing since the drivers were last read; one that fails does so at the first failure |
| PollContext.Poller.PollOnce | sensors/nusensors.cpp:594-613 | a call of `poll()` ends where and how `End` says, and leaves the scene as it was but for the reply it came back with, which takes one byte off the pipe |
| PollContext.Poller.Round | sensors/nusensors.cpp:554-618 | a call of `poll()`, and a read of the drivers exactly when it found something ready |
| PollContext.Poller.PollLoop | sensors/nusensors.cpp:554-618 | the do-while loop keeps budget, buffer and log in step, and reads what is left over before it waits |
| PollContext.Poller.PollEvents | sensors/nusensors.cpp:548-621 | the buffer holds exactly the drivers' events, shifted once; over any run, what came from each driver is its decoder's output over what was read from the kernel, and nothing the kernel delivered is lost; a normal return with budget is not empty, and one with budget left has found nothing ready; each `poll()` ends the one way it can and the last decides the result; a call left waiting has read all that was recorded and answered every flush; flushes owed complete first under the caller's handle; no stranded events |
| BatchDevice.TypeToSensor | sensors/BatchSensor.cpp:558-657 | every handle is a valid index of the driver's tables |
| BatchDevice.TypeTable | sensors/BatchSensor.cpp:558-657 | exactly the known types have a handle, one below the type, and no two share one |
| BatchDevice.DataIsExactly | sensors/BatchSensor.cpp:371-408 | over any run, the data are the fetched records, in order and as often, exactly those of a known type newer than their sensor's window, under the handle one below the type |
| BatchDevice.CompletionsAreExactly | sensors/BatchSensor.cpp:427-459 | over any run, the completions are those of the ABS and REL events with code 4 consumed, in order, each for the handle in the low 16 bits of its value |
| BatchDevice.BatchSensor.Query | sensors/BatchSensor.cpp:356-360 | hands over a prefix of the FIFO, at most what was asked |
| BatchDevice.BatchSensor.Convert | sensors/BatchSensor.cpp:371-408 | every record fetched is emitted or filtered; the budget never cuts one off |
| BatchDevice.BatchSensor.Fetch | sensors/BatchSensor.cpp:354-413 | the loop ends; output is the filter of what it fetched; budget left over without failure means an empty FIFO; what the kernel posted meanwhile |
| BatchDevice.BatchSensor.FetchOnce | sensors/BatchSensor.cpp:356-411 | a non-final query makes progress |
| BatchDevice.BatchSensor.ReadInput | sensors/BatchSensor.cpp:420-460 | completions come in order of their input events, within the budget |
| BatchDevice.BatchSensor.Consume | sensors/BatchSensor.cpp:427-459 | an END_FLAG yields one completion, any other event none |
| BatchDevice.BatchSensor.ReadEvents | sensors/BatchSensor.cpp:323-463 | data, then completions; in a call whose queries succeed an input event overtakes a record if and only if it was posted after the last query with a record queued after that query before it; the result code in every case |
| BatchDevice.BatchSensor.Finish | sensors/BatchSensor.cpp:417-463 | the same for what follows the queries, with how many input events are taken and when the call fails |
| BatchDevice.MarkedPast | sensors/BatchSensor.cpp:410-420 | an input event is marked past the records known at the start of a run of postings if and only if one is queued before it |
| BatchDevice.LateRecordIsOvertaken | sensors/BatchSensor.cpp:410-460 | a run of the driver without failure: a record and its END_FLAG arrive after the last query, and the completion goes out with the record unfetched |
| BatchDevice.FailedQueryIsOvertaken | sensors/BatchSensor.cpp:363-460 | a run of the driver with a failed query: the completion goes out with its record unfetched |
| Hwmsen.FullIsOrdered | sensors/Hwmsen.cpp:395-431 | a turn's stamps never decrease, never precede the session's last stamp, and end no later than the clock |
| Hwmsen.FullIsExactly | sensors/Hwmsen.cpp:395-431 | a turn's stamps written out: one delay apart up to the clock, as many as delays were missed if more than 1.8 but fewer than 100 were, the delay is not one second and there is a last stamp; else the clock alone |
| Hwmsen.TurnServes | sensors/Hwmsen.cpp:390-444 | a turn that leaves budget clears that sensor's bit alone and ends with the real sample |
| Hwmsen.RunServes | sensors/Hwmsen.cpp:376-446 | over any number of SYNs that leave budget, no sensor stays pending, and each one's stamps end with the clock reading of the last SYN that reported it |
| Hwmsen.LastReportIsLast | sensors/Hwmsen.cpp:378-381 | which SYN that is |
| Hwmsen.ExpectedOnly | sensors/Hwmsen.cpp:448-453 | on a device that posts REL and SYN events only, every SYN is seen and nothing is overrun |
| Hwmsen.HwmsenDriver.SlotOf | sensors/Hwmsen.cpp:231-262 | exactly the handles 0 to 4 and 7 have a slot, and which |
| Hwmsen.GapsAreBounded | sensors/Hwmsen.cpp:395-431 | a turn, cut off anywhere, continues a running session in steps of at most 1.8 delays, exactly one delay from its own first stamp on, up to the real one if the budget lasts |
| Hwmsen.FirstStampRepeats | sensors/Hwmsen.cpp:397-411 | exactly when a turn repeats the last stamp |
| Hwmsen.StampRepeats | sensors/Hwmsen.cpp:397-431 | a run of the driver: two SYNs two delays apart emit the first stamp twice |
| Hwmsen.TurnKeepsGood | sensors/Hwmsen.cpp:395-431 | a turn cut off anywhere keeps the sensor's order and its last stamp |
| Hwmsen.HwmsenDriver.constructor | sensors/Hwmsen.cpp:106-152 | initial delays of 200 ms, nothing active, an empty ring of 4 events |
| Hwmsen.HwmsenDriver.Enable | sensors/Hwmsen.cpp:222-340 | resets one sensor's session even when the ioctl fails; order over the run is kept |
| Hwmsen.HwmsenDriver.SetDelay | sensors/Hwmsen.cpp:607-630 | which handles and values are taken; order over the run is kept |
| Hwmsen.HwmsenDriver.FillAndEmit | sensors/Hwmsen.cpp:395-431 | the loop emits the made-up stamps and the real one as far as the budget goes, and remembers the last emitted |
| Hwmsen.HwmsenDriver.FillGap | sensors/Hwmsen.cpp:408-421 | the loop emits the made-up stamps in order as far as the budget goes |
| Hwmsen.HwmsenDriver.TakeTurn | sensors/Hwmsen.cpp:390-444 | one sensor's turn, logged under that sensor alone; in a running session its stamps go on in steps of at most 1.8 delays |
| Hwmsen.HwmsenDriver.Mark | sensors/Hwmsen.cpp:378-381 | reported sensors become pending, pending ones stay so, the clock is read once |
| Hwmsen.HwmsenDriver.Syn | sensors/Hwmsen.cpp:376-446 | pending sensors take their turns in order, each with the budget left; nothing when no sensor is active; every motion sensor's stamps stay in order |
| Hwmsen.HwmsenDriver.ReadEvents | sensors/Hwmsen.cpp:347-457 | the output is that of the SYNs it sees, in order; with a sensor active and budget left no sensor stays pending, and each one's stamps end with the clock reading of the last SYN that reported it; every motion sensor's stamps stay in order over the whole run; which SYNs it sees when events of other types are stepped over in pairs; it steps past the ring's end exactly when it has budget left and such an event comes last; result codes |
| Hwmsen.LoneEventOverruns | sensors/Hwmsen.cpp:448-453 | a run of the driver: one event of any other type makes it step past the ring's end |
| Humidity.RecentIsSuffix | sensors/Humidity.cpp:262-274 | the samples kept by the 450 ms filter are exactly the last `MadeUp` ones |
| Humidity.FullIsOrdered | sensors/Humidity.cpp:259-280 | stamps never decrease, never precede the last one, and reach back less than 450 ms |
| Humidity.FullIsExactly | sensors/Humidity.cpp:259-280 | a reading's stamps written out: one delay apart up to the clock, as many as delays were missed and reach back less than 450 ms, if 1 to 99 were missed; else the clock alone |
| Humidity.SynExactly | sensors/Humidity.cpp:253-286 | what a SYN emits, costs and leaves as last stamp: without budget, off, settling, and settled |
| Humidity.RunEndsWithReading | sensors/Humidity.cpp:253-286 | over any number of SYNs that leave budget, the output ends with the last real reading; off or settling, there is none |
| Humidity.FullFollows | sensors/Humidity.cpp:259-274 | when nothing missed is too old, the first stamp follows the last one within a delay |
| Humidity.BackDatedPast | sensors/Humidity.cpp:259-280 | a reading is stamped before an earlier stamp if and only if 1 to 99 delays were missed and some whole number of them, less than 450 ms, reaches back past it |
| Humidity.SessionsOverlap | sensors/Humidity.cpp:157-163 | a run of the driver, Enable, SYN, Enable, SYN, whose stamps go back in time |
| Humidity.HumiditySensor.constructor | sensors/Humidity.cpp:61-78 | off, no delay, no last stamp, an empty ring |
| Humidity.HumiditySensor.Enable | sensors/Humidity.cpp:144-172 | enabling starts a session with no last stamp; a failed open changes nothing |
| Humidity.HumiditySensor.SetDelay | sensors/Humidity.cpp:173-190 | the delay is taken even when the attribute cannot be opened |
| Humidity.HumiditySensor.MakeUp | sensors/Humidity.cpp:259-274 | the filtering loop yields the recent made-up stamps as far as the budget goes |
| Humidity.HumiditySensor.EmitDue | sensors/Humidity.cpp:259-280 | made-up stamps, then the reading if budget is left |
| Humidity.HumiditySensor.Deliver | sensors/Humidity.cpp:258-285 | what is emitted keeps the session in order, and the last stamp is the one emitted last |
| Humidity.HumiditySensor.Tick | sensors/Humidity.cpp:257-285 | what a reading emits, costs and leaves as last stamp is what `SynExactly` says |
| Humidity.HumiditySensor.Syn | sensors/Humidity.cpp:253-286 | every stamp reaches back less than 450 ms; stamps are one delay apart, and the session goes on within a delay when nothing missed is too old; the log of all sessions goes out of order exactly when the reading is back-dated past its last stamp |
| Humidity.HumiditySensor.ReadEvents | sensors/Humidity.cpp:235-295 | never more than the budget; every event taken in order, and the output is that of the SYNs taken; with budget left every event is taken and the last real reading comes last; a session's stamps never decrease over the whole run; the code of a failed fill |
| Lights.UnlitShowsNothing | liblights/lights.c:222-226 | an unlit request shows on no LED |
| Lights.FreshShows | liblights/lights.c:436-486 | programmed afresh, the first of red, green and blue that is not 0 is on if alpha is not, and blinks exactly if the request is timed with both times given, with those times |
| Lights.ShownByColor | liblights/lights.c:450-486 | the same choice of LED by masks of the colour |
| Lights.NewTimesAreIgnored | liblights/lights.c:242-243 | a run of the device: two battery requests, and the LEDs keep the first one's times |
| Lights.LightsDevice.constructor | liblights/lights.c:228-231 | all LEDs off |
| Lights.LightsDevice.BlinkLed | liblights/lights.c:228-270 | cache and hardware agree after every step, at most one LED is lit, an unchanged status writes nothing |
| Lights.LightsDevice.SetSpeaker | liblights/lights.c:429-488 | the statuses become the request's, whatever they were; the exact effect on the hardware |
| Lights.LightsDevice.Only | liblights/lights.c:466-480 | one LED is set and the other two are off |
| Lights.LightsDevice.HandleSpeaker | liblights/lights.c:490-499 | statuses follow the battery if lit and else the notification; unlit battery means freshly programmed times |
| Lights.LightsDevice.SetBattery | liblights/lights.c:501-513 | what is seen is what the battery colour asks for if it is lit, and else the notification; a lit one takes full effect if and only if `TakesEffect` |
| Lights.LightsDevice.SetNotification | liblights/lights.c:515-529 | under a lit battery nothing changes; else what is seen is what the colour asks for, with its blink times |
| CStrings.StrTok | mrdump/mrdump_status.c:152-159 | a call cuts off the first non-empty line in place and leaves exactly the others to find |
| CStrings.TokenAt | mrdump/mrdump_status.c:152-159 | the token up to a newline or the end is the first non-empty line |
| CStrings.TokensOfText | mrdump/mrdump_status.c:152-159 | the tokens of lines written down are the lines |
| RamDump.UnknownOutputRejects | mrdump/mrdump_status.c:161-171 | the lines are rejected if and only if one is an unknown OUTPUT |
| RamDump.LastOutputWins | mrdump/mrdump_status.c:161-171 | otherwise the last OUTPUT wins, and without one the setting stays |
| RamDump.LastModeWins | mrdump/mrdump_status.c:172-174 | and so does the last MODE |
| RamDump.KindOf | mrdump/mrdump_status.c:161-174 | which text of a line gives which output, which rejects the block, and which gives what mode |
| RamDump.VerdictSays | mrdump/mrdump_status.c:153-191 | OK gives a dump with the output and mode of the last lines that name them, NONE and CLEAR no dump, any other first line a failed one; unreadable exactly without a line or with an unknown output behind OK |
| RamDump.WrittenIsRead | mrdump/mrdump_status.c:122-197 | lines written to a signed block are read back as the report they ask for, with the text and the log |
| RamDump.ClearThenRead | mrdump/mrdump_status.c:103-104 | clearing is idempotent, keeps signature and log, and a signed block then reads as no dump with the same log |
| RamDump.Partition.StatusClear | mrdump/mrdump_status.c:86-120 | success exactly when every step succeeds; then the block is the cleared one; on no path does a byte outside the status change |
| RamDump.Partition.Overwrite | mrdump/mrdump_status.c:97-104 | the block in memory becomes the cleared block |
| RamDump.Partition.WriteBack | mrdump/mrdump_status.c:106-115 | a short write changes a prefix of the block only |
| RamDump.Partition.StatusGet | mrdump/mrdump_status.c:122-197 | the result is what the block says, on every block and every failure; on a block whose status text is given, what its lines say |
| RamDump.Partition.Parse | mrdump/mrdump_status.c:150-191 | the in-place parser agrees with the verdict over the non-empty lines |
| RamDump.Partition.Settle | mrdump/mrdump_status.c:158-176 | the token loop is the fold over the lines behind OK |

## Left out

- ReadDriver: drivers with other budget rules (light, proximity, gravity, gesture) and negative returns inside `pollEvents` are not covered, and no sensor is switched between the calls of one run.
- PollEvents: budgets are not negative, and a call is followed through a finite list of replies; what it already placed is not returned when `poll()` fails, as in the source.
- BatchDevice.BatchSensor.ReadEvents: the payload layout of records (sensors/BatchSensor.cpp:521-556) is not modelled, and the windows stay as they are over a run; for a call with a failed query only the marks themselves say what is overtaken.
- Hwmsen.HwmsenDriver.ReadEvents: a call that steps past the end of the ring (sensors/Hwmsen.cpp:448-453) is followed up to that step only; sample values are not modelled; light and proximity stamps are not covered by the order.
- Humidity.HumiditySensor.ReadEvents: the humidity value itself is not modelled.
- Visit: the counter and one visit of the scan are single steps; an increment that collides with a decrement of the same counter is not modelled.
- BlinkLed: the three copies for red, green and blue are one method, and writes to the LED files succeed.
- Enable of the magnetometer: the bit mask of enabled sensors is not kept, as reading never looks at it.
- The one-shot gesture drivers, and the readers that repeat the accelerometer's (gyroscope, rotation vectors, pedometer, uncalibrated sensors): they would only add easy or repeated members.
- Sysfs paths, divisors, logging, module tables, the trackball, backlight, keyboard and button lights, and the other directories of the repository: plumbing and wrappers.
