# A small SoC, its simulation models and its firmware, verified

The repository is a small RISC-V system on chip in SystemVerilog (an OBI interconnect, UART, timer, quadrature
decoders, a motor controller, pulse generators), the C++ models that stand at the other end of its pins in
simulation, and the C programs on either side of its serial line. This project models the three as matching pairs
and proves what each pair promises.

Every clocked module is a class with one method per clock. Where the class has more to it than a field or two it is
proved to step like a specification function, and the properties are lemmas about runs of that function. A method
reads the registers as they were before the clock edge. All runs start from reset (or from any state that satisfies
the stated invariant) and are unbounded in length.

## The files

| file | what it holds |
|---|---|
| `Bits`, `Words`, `Fixed`, `Arithmetic`, `Ring`, `Masks` | bytes and words, 32-bit wrap, ring pointers, masked comparison |
| `Obi`, `BusSpec`, `BusHistory`, `BusRuns`, `BusGrants`, `Bus` | the interconnect: as a queue, its history, whole runs, who is granted when, and the ring that implements the queue |
| `Monitor`, `Addresses` | the simulation's view of the bus |
| `RegFile`, `Memory`, `MemoryLatency` | the shared register file, and the bus with register files as a sequential memory that answers in time |
| `UartBaud`, `UartPoll`, `UartStart`, `UartWake` | the registers of the UART: selecting a rate, polling the flags, and both directions from reset |
| `UartSpec`, `SimUart`, `UartTx`, `UartTxBound`, `UartRx`, `UartRxBound`, `UartRxBus`, `Uart`, `UartBus` | the serial line: both ends, both directions, why their bit lengths are needed, the rings in arrays, and the bus protocol |
| `TimerSpec`, `Timer`, `TimerDriver` | the 64-bit timer and the firmware's 32-bit accesses |
| `Quad`, `Pid`, `Derivative`, `Damping`, `PidLoop` | quadrature decoding, the controller, the two together, what the derivative does, the closed loop |
| `PidStatus`, `ObiPid`, `PidFirmware` | stability events, the status register, the interrupt handler |
| `MotorPwm`, `MotorDrive`, `ServoPwm` | pulse generators against the decoders that measure them |
| `Commands`, `MainLoop`, `Messages` | the byte protocol, the firmware's main loop, and when it sends what |

## What was found

- **Interconnect.** Accepting a request for a mapped device never clears `done`; the ring is right only because a
  free slot always has `done` and `err` clear (`Bus.RingStaysValid`). With that, hosts are answered in grant order.
- **UART.** The receive direction needs 25 clocks per bit and the transmit direction 17, and both numbers are exact:
  one clock fewer, and for every shorter bit down to two or three clocks, there is a byte that arrives wrong
  (`UartRxBound.ExactlyFrom25`, `UartTxBound.ExactlyFrom17`). With one clock per bit or none, and two for the
  decoder, nothing ever arrives at all. The selectable rates are far above both bounds.
- **Motor status.** An event of an axis in the very clock in which that axis is acknowledged sets no bit
  (`PidStatus.BitStep`). The interrupt handler is right all the same, because it only acknowledges what it has
  already flagged (`PidFirmware.NoEventLost`).
- **UART after reset.** The transmit counter runs while no rate is selected and is not restarted when one is. A rate
  selected within a bit time of reset works at once; selected later, nothing is transmitted until the counter has
  wrapped at 2^32, 86 seconds at 50 MHz (`UartStart.TransmitsFromReset`). The receiver begins in a start bit that is
  not there, because its synchronizer resets to low, and has the same problem (`UartWake.ReceivesFromReset`,
  `UartWake.DeafFromReset`): nothing should be sent to it in that time. What is transmitted is only late, never wrong.
- **Controller.** When the error, the motion or the sum leaves 32 bits the motor can be driven the wrong way
  (`Pid.OverflowReverses`). `Pid.DirectionExact` says exactly when the direction is right, and `Pid.ExactResponse`
  exactly when the number is.
- **Derivative.** The difference of the two samples is shifted right and so rounded down: backward motion of any
  speed counts as a whole unit, forward motion only at a tick in every clock. The derivative brakes the one and
  hardly ever the other (`Damping.BrakesMotion`). Sampling exponents above 26 turn it off (`Damping.NeverSamples`).
- **Servo angle.** With the divisor 66535 an angle of 180 degrees gives 99248 clocks, not the 100000 of two
  milliseconds (`MainLoop.ServoRange`).
- **Stability message.** A reset of the position moves both set points to zero without clearing the flags, so it
  causes no message (`Messages.SendsExactly`).
- **Pulse decoder.** The first report after an idle line is too long by the idle time modulo the timeout for a stable
  line, so it is exact only after a multiple of that timeout (`ServoPwm.FirstReport`).
- **Clearing a position.** A step that reaches the counter in the clock of a clear is absorbed by it
  (`Quad.PositionTracksNet`, through `Quad.Origin`).

## Model

| member | source | states |
|---|---|---|
| `Bus.Interconnect.Clock` | rtl/core/bus.sv:59-177 | the ring of slots behaves in every clock, outputs included, like a queue of outstanding transactions |
| `Bus.Interconnect.Arbitrate` | rtl/core/bus.sv:59-68 | the lowest-numbered requesting host wins |
| `Bus.Interconnect.Decode` | rtl/core/bus.sv:70-81 | the highest-numbered device whose masked compare matches is chosen, or none |
| `Bus.Interconnect.SelectCaptures` | rtl/core/bus.sv:83-105 | a slot captures exactly if it is the oldest still waiting for a device that answers now |
| `Bus.Interconnect.DriveRequests` | rtl/core/bus.sv:145-165 | only the winner is granted, only its device sees a request, and only while the ring has room |
| `Bus.Interconnect.DriveResponses` | rtl/core/bus.sv:167-177 | only the oldest transaction answers, at its own host, with zero data on an error |
| `Bus.Interconnect.ClockRing` | rtl/core/bus.sv:107-143 | accept, capture and pop in one clock leave every slot as specified |
| `Bus.RingStaysValid` | rtl/core/bus.sv:107-143 | free slots keep `done` and `err` clear and occupancy stays below the ring's length |
| `Bus.EnteringView` | rtl/core/bus.sv:113-127 | an accepted request for a mapped device is not born answered, although `done` is not written |
| `Bus.RingSteps` | rtl/core/bus.sv:107-143 | the ring's contents after a clock are the queue's next value |
| `BusHistory.CapturedOnce` | rtl/core/bus.sv:83-105 | a device answer is captured by exactly one slot if the device owed one, else by none |
| `BusHistory.NextInLine` | rtl/core/bus.sv:83-105 | the capturing slot is the one whose rank among the grants to that device is next |
| `BusHistory.StepConsistent` | rtl/core/bus.sv:107-143 | queue and deliveries always are what the history of grants and answers prescribes |
| `BusRuns.RunConsistent` | rtl/core/bus.sv:107-177 | that holds in every reachable state |
| `BusRuns.DeliveriesFollowGrants` | rtl/core/bus.sv:83-177 | one response per grant, in grant order, at the asking host, carrying the j-th answer of a device for the j-th grant to it, with zero data on an error |
| `BusRuns.NothingLost` | rtl/core/bus.sv:83-143 | if a device only answers what it was asked, every answer it presents is captured, in order |
| `BusRuns.Drains` | rtl/core/bus.sv:137-141 | once a prefix is answered by the devices, one transaction leaves the ring every clock |
| `BusRuns.BoundedResponse` | rtl/core/bus.sv:107-177 | with device latency L, a request granted in clock t is answered by clock t + L + BufferMax - 1 |
| `BusGrants.GrantedExactly` | rtl/core/bus.sv:113-127 | in every cycle host h is granted for a device, or none, exactly if it is the lowest requester, the ring has room, and the highest device with the address takes the request or no device has it |
| `BusGrants.GrantPin` | rtl/core/bus.sv:145-165 | the grant line of a host is high in exactly those cycles |
| `BusGrants.RequestPin` | rtl/core/bus.sv:155-160 | a device sees a request exactly if the winner's address is its own and the ring has room: the winner's, less the base |
| `BusGrants.RoomComes` | rtl/core/bus.sv:137-141 | with device latency L a full ring has room again within L + 1 cycles |
| `BusGrants.UnmappedIsAnswered` | rtl/core/bus.sv:120-126 | a request for an address that no device has, held by the winning host, is granted in the first cycle with room and answered with an error in bounded time |
| `Monitor.Conservation` | rtl/core/bus.sv:107-143 | per host, in every reachable state, grants = responses + outstanding slots |
| `Monitor.SameTransaction` | dv/verilator/sim_main.cpp:64-90 | the n-th request and n-th response of a host belong to one transaction |
| `Monitor.NeverAborts` | dv/verilator/sim_main.cpp:64-90 | the monitor never reaches its abort and shows each response with its own request and sequence number |
| `Monitor.SimMonitor.HostGntReceived` | dv/verilator/sim_main.cpp:64-74 | the callback appends a pending transaction with the next 64-bit sequence number |
| `Monitor.SimMonitor.HostRvalidReceived` | dv/verilator/sim_main.cpp:76-90 | it aborts exactly when nothing is pending, else completes the oldest and keeps the last twenty |
| `Masks.MaskIsRange` | rtl/core/bus.sv:74-75 | for any power-of-two size and aligned base, masked equality is the range test |
| `Addresses.MatchIsClass` | rtl/core/pp_system.sv:32-58 | a device of the system matches exactly the addresses the simulation gives to it |
| `Addresses.OffsetFromBase` | rtl/core/bus.sv:157 | the address forwarded to a device is the distance from its base |
| `Addresses.DecodeAgrees` | dv/verilator/sim_mmio.hpp:56-65 | at most one device matches any address, and it is the one `classify_address` names, or none if invalid |
| `RegFile.ByteMasked` | rtl/common/obi_reg.sv:96-98 | a read returns the enabled lanes and zero elsewhere |
| `RegFile.ObiReg.ReadLanes` | rtl/common/obi_reg.sv:96-98 | the lane loop computes that word |
| `RegFile.EveryMode` | vendor/lowrisc_ip/ip/prim/rtl/prim_subreg_arb.sv:32-136 | bit by bit what each access mode makes of a software and a hardware write in the same clock |
| `RegFile.AccessByAddress` | rtl/common/obi_reg.sv:69-104 | for every address, the register accessed is the one whose four bytes hold it; an error exactly behind the last register or for a partial write |
| `RegFile.ObiReg.constructor` | vendor/lowrisc_ip/ip/prim/rtl/prim_subreg.sv:55-61 | registers start at their reset values with no response pending |
| `RegFile.ObiReg.Clock` | rtl/common/obi_reg.sv:69-104 | one clock of registers and response flip-flops, each register by its access mode |
| `Memory.ClockAgrees` | rtl/common/obi_reg.sv:69-104 | each device holds what replaying its grants gives and owes at most its latest answer |
| `Memory.ActsSequentially` | rtl/core/bus.sv:107-177 | the k-th response is that of executing the granted requests one after another |
| `Memory.RemembersLastWrite` | rtl/common/obi_reg.sv:76-83 | a read-write register holds the last full word stored in its four bytes before, or its reset value |
| `Memory.RefusedChangesNothing` | rtl/common/obi_reg.sv:74-83 | accesses behind the last register, partial writes and unmapped addresses change nothing, and the first two are exactly the failing ones |
| `Memory.ReadsLastWrite` | rtl/common/obi_reg.sv:69-104 | a read returns the enabled bytes of the last full word stored before at any address in the same four bytes; an error exactly behind the last register or for a partial write |
| `MemoryLatency.BusView` | rtl/core/bus.sv:107-177 | a run of the composed system is a run of the interconnect on the pins its devices drive |
| `MemoryLatency.AnswersNextClock` | rtl/common/obi_reg.sv:90-103 | register files answer within one clock of every grant |
| `MemoryLatency.AnsweredInTime` | rtl/common/obi_reg.sv:69-104 | in the composed system a request granted in clock t reaches its host by clock t + 1 + BufferMax - 1 |
| `SimUart.UARTInjector.Inject` | dv/verilator/peripherals/sim_uart.hpp:27-33 | a byte is taken only between frames |
| `SimUart.UARTInjector.Tick` | dv/verilator/peripherals/sim_uart.hpp:35-68 | one tick of the serializer and the level it drives |
| `SimUart.UARTDecoder.Tick` | dv/verilator/peripherals/sim_uart.hpp:83-111 | one tick of the deserializer and the byte it reports |
| `Uart.Transmitter.Clock` | rtl/uart_peripheral/uart_obi.sv:236-277 | the transmit state machine with its ring in an array steps like the queue specification |
| `Uart.Receiver.Clock` | rtl/uart_peripheral/uart_obi.sv:280-334 | the receive state machine with its ring in an array steps like the queue specification |
| `Uart.Receiver.Store` | rtl/uart_peripheral/uart_obi.sv:320-327 | a completed byte is kept if the ring has room and otherwise leaves its contents untouched |
| `Uart.UartObi.ReadLatched` | rtl/uart_peripheral/uart_obi.sv:175-191 | status flags, baud and receive lane as read by the bus |
| `Uart.UartObi.Clock` | rtl/uart_peripheral/uart_obi.sv:103-334 | all clocked blocks together, each reading the registers before the edge |
| `Uart.UartObi.Pins` | rtl/uart_peripheral/uart_obi.sv:120-149 | grant, error and transmit line |
| `Uart.TxPushSplits` | rtl/uart_peripheral/uart_obi.sv:192-209 | an enqueue in the same clock as a pop loses neither |
| `Uart.RxPopSplits` | rtl/uart_peripheral/uart_obi.sv:175-184 | a dequeue in the same clock as a completed byte loses neither |
| `UartTx.RunningStays` | rtl/uart_peripheral/uart_obi.sv:236-277 | outside IDLE the ring is not empty and the latch holds its oldest byte |
| `UartTx.LinkStays` | rtl/uart_peripheral/uart_obi.sv:226-277 | transmitter and decoder stay aligned through every clock, from 17 clocks per bit |
| `UartTx.ReportIsHead` | dv/verilator/peripherals/sim_uart.hpp:83-111 | the decoder reports the ring's oldest byte, once, before it is popped |
| `UartTx.WriteStep` | rtl/uart_peripheral/uart_obi.sv:192-209 | a stalling write enqueues exactly its enabled bytes, lane 0 first |
| `UartTx.ReportsInWriteOrder` | rtl/uart_peripheral/uart_obi.sv:192-277 | what is reported is always a prefix of the enabled bytes in write order, with full rings and concurrent draining |
| `UartTx.EventuallyReported` | rtl/uart_peripheral/uart_obi.sv:192-277 | after a bounded quiet time every enabled byte has been reported |
| `UartTxBound.LastBitMissed` | dv/verilator/peripherals/sim_uart.hpp:83-111 | from 3 to 16 clocks per bit a byte with only its last bit set is reported as zero |
| `UartTxBound.ExactlyFrom17` | dv/verilator/peripherals/sim_uart.hpp:83-111 | reports are always a prefix of what was enqueued if and only if there are at least 17 clocks per bit, or at most two, when nothing is reported |
| `UartTx.EveryRateFits` | rtl/uart_peripheral/uart_obi.sv:89-101 | all selectable rates at 50 MHz are above both bounds |
| `UartBaud.BaudReadsBack` | rtl/uart_peripheral/uart_obi.sv:207-211 | over every request sequence from reset, a read of the baud lane returns byte 0 of the last store to it, or zero |
| `UartBaud.RateInForce` | rtl/uart_peripheral/uart_obi.sv:89-101 | between accesses the rate in force is that of this store |
| `UartBaud.BitLength` | rtl/uart_peripheral/uart_obi.sv:89-101 | a bit is the whole clocks in the period of the selected standard rate |
| `UartBaud.OtherReadsAreZero` | rtl/uart_peripheral/uart_obi.sv:136-148 | lanes that cannot be read return zero |
| `UartPoll.Answers` | rtl/uart_peripheral/uart_obi.sv:84-87 | the four status flags as the bus reads them |
| `UartPoll.StoreNeverStalls` | sw/main.c:6-12 | after a poll without the transmit-full flag, the store of a byte enqueues it at once and is answered after its four lanes, however late it comes |
| `UartPoll.ReadGetsByte` | sw/main.c:118-119 | after a poll without the receive-empty flag, the read of the receive lane returns a received byte, the oldest |
| `UartStart.FirmwareRate` | sw/main.c:98 | the firmware's first store selects a 9600th of the clock rate |
| `UartStart.TransmitsFromReset` | rtl/uart_peripheral/uart_obi.sv:103-118 | from reset, with the rate selected at any time: reports are always a prefix of what was written; none until the counter wraps if the store was late, in step from the start if it was not |
| `UartStart.AllReportedFromReset` | rtl/uart_peripheral/uart_obi.sv:192-277 | and after a bounded quiet time all of it has been reported |
| `UartRx.SampleInsideBit` | rtl/uart_peripheral/uart_obi.sv:307-318 | in both alignments every data sample falls inside its bit |
| `UartRx.LinkStays` | rtl/uart_peripheral/uart_obi.sv:280-334 | injector and receiver stay aligned, for early and for middle samples of the start bit |
| `UartRx.RingStores` | rtl/uart_peripheral/uart_obi.sv:319-328 | a byte completed on a full ring is dropped and leaves the held bytes as they are |
| `UartRx.ReceivesInOrder` | rtl/uart_peripheral/uart_obi.sv:280-334 | completed bytes are a prefix of those sent, at most two behind; read bytes plus ring are those that found room |
| `UartRx.NothingDropped` | rtl/uart_peripheral/uart_obi.sv:319-328 | if the ring has room whenever a byte completes, what is read and held is what was sent |
| `UartRx.EveryByteCompletes` | rtl/uart_peripheral/uart_obi.sv:280-334 | ten quiet bit times after any state of a run, every byte sent has completed |
| `UartRxBound.LastBitMissed` | dv/verilator/peripherals/sim_uart.hpp:35-68 | from 2 to 24 clocks per bit a zero byte sent to an idle receiver arrives with its last bit set |
| `UartRxBound.ExactlyFrom25` | rtl/uart_peripheral/uart_obi.sv:280-334 | completed bytes are always a prefix of those sent if and only if there are at least 25 clocks per bit, or at most one, when nothing completes |
| `UartRx.BusReceives` | rtl/uart_peripheral/uart_obi.sv:175-191 | the bytes returned by bus reads, then the ring, are the completed bytes that found room, whatever else the bus does |
| `UartRxBus.BusReceivesAll` | rtl/uart_peripheral/uart_obi.sv:280-334 | if the ring never fills, ten quiet bit times after the last byte the bytes read by the bus and held in the ring are exactly those sent |
| `UartWake.ReceivesFromReset` | rtl/uart_peripheral/uart_obi.sv:280-306 | from reset, with the rate selected at any time, nothing sent after the deaf clocks that follow is lost |
| `UartWake.DeafFromReset` | rtl/uart_peripheral/uart_obi.sv:280-306 | a rate selected more than a bit time after reset leaves the receiver deaf until its counter wraps |
| `UartBus.KeepsBusProtocol` | rtl/uart_peripheral/uart_obi.sv:151-224 | on the interconnect, for any requests and any line, the UART answers only what it was granted before |
| `UartBus.OneAnswerPerGrant` | rtl/uart_peripheral/uart_obi.sv:151-224 | it has presented one answer for each grant in every clock, but for at most one in progress |
| `UartBus.ErrorBelongsToRequest` | rtl/uart_peripheral/uart_obi.sv:120-149 | its error line, combinational on the latched address, is right for the request being answered |
| `Timer.SysTimer.Clock` | rtl/obi_sys_timer.sv:40-62 | the five registers behave as two numbers; a store to either half of the time replaces that clock's tick |
| `TimerSpec.QuietStates` | rtl/obi_sys_timer.sv:55-62 | without stores the states are the consecutive ticks |
| `TimerSpec.NextInterrupt` | rtl/obi_sys_timer.sv:53 | with both control bits set the interrupt rises exactly when the time reaches the compare value, otherwise never |
| `TimerSpec.StoreReplacesHalf` | rtl/obi_sys_timer.sv:55-62 | a store to one half of a register leaves the other halves as without it, but displaces a tick if it is to the time |
| `TimerDriver.RegisterMap` | sw/peripherals.h:8-14 | the five words lie where the firmware's header has them |
| `TimerDriver.NotTorn` | sw/main.c:34-40 | a low word between two equal high words completes to the time it was read at |
| `TimerDriver.WithinTwoIterations` | sw/main.c:34-38 | two iterations under 2^32 ticks cannot both straddle a carry |
| `TimerDriver.TimerReadMtime` | sw/main.c:29-41 | for any waits between accesses, the result is the 64-bit time at the instant of the low-word read |
| `TimerDriver.TimerReadMtimeTwice` | sw/main.c:29-41 | if two iterations take under 2^32 clocks the read ends within six accesses with that result |
| `TimerDriver.ArmingIsClean` | sw/main.c:43-47 | after each clock of the three stores an interrupt means the time has reached the old or the new value, and the new one is in force at the end |
| `TimerDriver.TimerWriteMtimecmp` | sw/main.c:43-47 | the clocks recorded in the timer's history during the call are those of the three stores, and none of them shows a spurious interrupt |
| `TimerDriver.Firmware.MachineTimerHandler` | sw/main.c:69-73 | the deadline becomes one period after the low-word read, and no clock recorded from the first read to the last store shows a spurious interrupt |
| `TimerDriver.HandlingIsClean` | sw/main.c:69-73 | the read loop and the three stores together are free of spurious interrupts |
| `TimerDriver.NextPeriod` | sw/main.c:69-73 | after the handler the interrupt is high exactly if a period has passed since that read |
| `TimerDriver.Firmware.TimerInit` | sw/main.c:61-65 | a stopped timer is started with a deadline one period ahead, and no clock of the whole sequence shows an interrupt |
| `TimerDriver.StartingIsSilent` | sw/main.c:61-65 | the stores of that sequence, for any waits between them |
| `TimerDriver.FirstInterrupt` | sw/main.c:61-65 | the first interrupt comes exactly one period after the last store |
| `Quad.QuadInjector.IncreaseTicks` | dv/verilator/peripherals/sim_quad.hpp:16-27 | one call counts, and steps forward when the threshold is reached |
| `Quad.QuadInjector.DecreaseTicks` | dv/verilator/peripherals/sim_quad.hpp:29-40 | one call counts, and steps backward when the threshold is reached |
| `Quad.QuadDecoder.Clock` | rtl/quad_peripheral/quad_decoder.sv:25-60 | synchronizer, state table and wrapping counter |
| `Quad.OneStepPerClock` | dv/verilator/peripherals/sim_quad.hpp:16-40 | with thresholds of two or more at most one Gray step is made, even by one call each way |
| `Quad.AnyPins` | rtl/quad_peripheral/quad_decoder.sv:43-60 | for any pins, one place counts the way it went, a jump of two counts nothing and is recovered from in a clock unless both pins are high |
| `Quad.CallsPerStep` | dv/verilator/peripherals/sim_quad.hpp:16-40 | with one threshold every so many calls make one Gray step, forward or backward |
| `Quad.PipelineFollows` | rtl/quad_peripheral/quad_decoder.sv:32-34 | latches and state hold the generator's last three positions |
| `Quad.PositionTracksNet` | rtl/quad_peripheral/quad_decoder.sv:36-39 | the position is the net count of two clocks ago since the last clear, modulo 2^32, for all thresholds and clears |
| `Pid.PidController.Drive` | rtl/pid_peripheral/pid_controller.sv:37-84 | response, stability, direction and duty from the registers |
| `Pid.PidController.Clock` | rtl/pid_peripheral/pid_controller.sv:46-69 | sampling counter, sample pair and saturating stability counter |
| `Pid.StabilityCountsRun` | rtl/pid_peripheral/pid_controller.sv:60-66 | the counter is the length of the current zero-response run, saturated; stable exactly from the period on |
| `Pid.StableRises` | rtl/pid_peripheral/pid_controller.sv:44 | the stable line rises exactly when a run reaches the period |
| `Pid.ProportionalBand` | rtl/pid_peripheral/pid_controller.sv:37-42 | without derivative gain or overflow, zero exactly for 0 <= Kp*error < 65536, else pointing toward that band |
| `Pid.ExactResponse` | rtl/pid_peripheral/pid_controller.sv:37-42 | for all gains and samples the response is floor(Kp*error/2^16) - floor(Kd*floor(motion/2^rate)/2^16) exactly if that fits in 32 bits and what wrapping adds is a multiple of 2^32 |
| `Pid.WrappedError` | rtl/pid_peripheral/pid_controller.sv:37-38 | an error that wraps does no harm exactly if the proportional gain is whole |
| `Pid.DampingBand` | rtl/pid_peripheral/pid_controller.sv:39-42 | with no proportional term the response opposes the sampled motion, zero exactly for 0 <= Kd*motion < 65536 |
| `Pid.OverflowReverses` | rtl/pid_peripheral/pid_controller.sv:38 | a concrete overflow that commands the wrong direction |
| `Pid.DirectionExact` | rtl/pid_peripheral/pid_controller.sv:71-84 | for all gains, samples and 32-bit set points and positions, the motor turns the way it is due exactly under a condition on the low 32 bits of what is due and what wrapping adds |
| `Pid.DutyGrows` | rtl/pid_peripheral/pid_controller.sv:71-84 | no duty without a response, otherwise the base duty and one more for every four units, up to the full duty |
| `Derivative.ResetClose` | rtl/pid_peripheral/pid_controller.sv:46-50 | reset satisfies the bound's starting condition at every rate |
| `Derivative.TwoSamples` | rtl/pid_peripheral/pid_controller.sv:52-58 | two periods after any state the samples are one period apart and at most one period's ticks different |
| `Derivative.DeltaBounds` | rtl/pid_peripheral/pid_controller.sv:39 | the shifted difference of such samples is -1, 0 or 1 through any wrap |
| `Derivative.DerivativeBounded` | rtl/pid_peripheral/pid_controller.sv:39-40 | over every run without a clear, for any pins, the derivative term is at most the scaled gain rounded up |
| `Damping.ResponseOverRuns` | rtl/pid_peripheral/pid_controller.sv:37-42 | over every run without a clear, the response is the proportional term less the gain applied to the motion between the last two sampling clocks |
| `Damping.DeltaIsMotion` | rtl/pid_peripheral/pid_controller.sv:39 | that motion counts as -1 if it is backward at all, as 1 at a tick in every clock, else as 0 |
| `Damping.BrakesMotion` | rtl/pid_peripheral/pid_controller.sv:71-84 | with the derivative alone the motor is driven against the motion seen, and coasts otherwise |
| `Damping.NeverSamples` | rtl/pid_peripheral/pid_controller.sv:52-58 | exponents above 26 take no sample, so the derivative term stays zero |
| `Damping.RateLowered` | rtl/pid_peripheral/pid_controller.sv:52-58 | after the exponent is lowered below the counter the next sample waits for the counter to wrap |
| `PidLoop.StepCloses` | rtl/pid_peripheral/pid_controller.sv:71-84 | every clock outside the band brings the loop one clock closer to it |
| `PidLoop.Converges` | rtl/pid_peripheral/pid_controller.sv:37-84 | the band is entered after exactly the predicted clocks and never left; stable rises exactly a period later |
| `PidStatus.BitStep` | rtl/pid_peripheral/obi_pid.sv:180-191 | an axis's bit is set by its event and cleared only by a write naming it, independently of the other axis |
| `PidStatus.BitHistory` | rtl/pid_peripheral/obi_pid.sv:180-191 | a bit is set exactly if some event has not been acknowledged since |
| `PidStatus.IrqMeansPending` | rtl/pid_peripheral/obi_pid.sv:190 | the interrupt is high exactly while some event of either axis is unacknowledged |
| `PidStatus.StatusReads` | rtl/pid_peripheral/obi_pid.sv:180-191 | over runs from reset a read at the base shows the pending events of X and Y as bits 0 and 1 |
| `PidStatus.EventIffRunReaches` | rtl/pid_peripheral/obi_pid.sv:170-188 | each maximal zero-response run that reaches the period raises exactly one event, one clock later |
| `PidStatus.ClearBits` | dv/uvm/obi_reg/obi_reg_scoreboard.svh:115-118 | write-one-to-clear bit by bit, against a hardware update in the same clock |
| `PidStatus.GainsInForce` | rtl/pid_peripheral/obi_pid.sv:72-76 | each controller runs with the words last stored at its own four offsets, 0x04 to 0x10 for X and 0x14 to 0x20 for Y |
| `ObiPid.ObiPid.Clock` | rtl/pid_peripheral/obi_pid.sv:93-191 | register file, both controllers and the edge detectors in one clock; the bridge drivers are in `MotorDrive` |
| `MotorDrive.Motors.Drive` | rtl/pid_peripheral/obi_pid.sv:118-168 | the pins of both motors show the direction and duty of their controllers' responses |
| `MotorDrive.Motors.Clock` | rtl/pid_peripheral/obi_pid.sv:93-191 | the peripheral and both generators in one clock |
| `MotorDrive.WindowShowsResponse` | rtl/pid_peripheral/obi_pid.sv:148-168 | while a response stays, a full decoder window reports its duty in its direction, from any generator phase |
| `PidFirmware.Firmware.PidInterruptHandler` | sw/main.c:78-95 | the flags raised and the acknowledgement written are what the status read showed |
| `PidFirmware.NoEventLost` | sw/main.c:78-95 | flag or status bit afterwards exactly if either was set or an event came during the handler, wherever it fell |
| `MotorPwm.Pwm.Clock` | rtl/pid_peripheral/pwm.sv:19-27 | the counter runs through the period |
| `MotorPwm.WindowIsDuty` | rtl/pid_peripheral/pwm.sv:16-27 | any window of one period, in any phase, is high for exactly floor(duty*period/256) clocks |
| `MotorPwm.DRV8833Decoder.Tick` | dv/verilator/peripherals/sim_drv8833.hpp:52-86 | counts by pin state for two channels, reported and cleared at a full window |
| `MotorPwm.CountsAreHighs` | rtl/pid_peripheral/md_controller.sv:30-53 | the mode decides which of the four counts the high and the low clocks go to |
| `MotorPwm.FullWindow` | dv/verilator/peripherals/sim_drv8833.hpp:75-82 | a full window reports exactly the duty in the commanded direction for both motors |
| `MotorPwm.TotalsAreCycles` | dv/verilator/peripherals/sim_drv8833.hpp:52-86 | for any pins the four counts sum to the ticks of the window |
| `ServoPwm.PrgmPwm.Clock` | rtl/pwm_peripheral/prgm_pwm.sv:16-26 | the counter is below the current period after every enabled clock, even a rewritten one |
| `ServoPwm.PeriodShowsWidth` | rtl/pwm_peripheral/prgm_pwm.sv:12-26 | one period, in any phase, is high for exactly the width, or throughout if the width is longer |
| `ServoPwm.ZeroPeriodIsOff` | rtl/pwm_peripheral/prgm_pwm.sv:12-26 | with period zero the output is never high |
| `ServoPwm.PWMDecoder.Tick` | dv/verilator/peripherals/sim_pwm.hpp:46-86 | edges, durations, periodic and stable reports |
| `ServoPwm.InStepStays` | dv/verilator/peripherals/sim_pwm.hpp:48-64 | once a rising edge is seen, reports come at rising edges only and no phase looks stable |
| `ServoPwm.ReportsAreExact` | dv/verilator/peripherals/sim_pwm.hpp:46-86 | from any decoder state and phase, every report from the third rising edge on is exactly (P, W, P - W) |
| `ServoPwm.IdleCounts` | dv/verilator/peripherals/sim_pwm.hpp:62-84 | on a steady line the measurement starts afresh at every stable report |
| `ServoPwm.FirstReport` | dv/verilator/peripherals/sim_pwm.hpp:51-84 | the first report after a low line of any length is too long by that length modulo the timeout, hence exact if and only if it is a multiple |
| `ServoPwm.SteadyReports` | dv/verilator/peripherals/sim_pwm.hpp:46-86 | on a steady line the decoder reports its level once every timeout, nothing else, and measures afresh from there |
| `Commands.LeRoundTrip` | sw/main.c:22-27 | `read_u32_le` inverts the host's byte order |
| `Commands.LeOnto` | sw/main.c:22-27 | every four bytes are the encoding of the word read from them |
| `Commands.CommandRoundTrip` | dv/verilator/ppcsender.c:18-45 | an encoded command is one complete frame that decodes to it |
| `Commands.NextByte` | sw/main.c:118-127 | a frame ends exactly where its encoding does |
| `Commands.OnlyEncodings` | sw/main.c:142-206 | a finished frame is executed exactly if it is an encoded command; any other first byte swallows six bytes and does nothing |
| `Commands.FramingRoundTrip` | sw/main.c:117-209 | for all command lists and patterns of empty polls the frames decode to exactly that list and none is left open |
| `Commands.PacketRoundTrip` | dv/verilator/ppcsender.c:87-114 | the host's reading of a packet stream gives the packets |
| `Commands.Host.ReadExact` | dv/verilator/ppcsender.c:12-16 | exactly the next n bytes |
| `Commands.Host.Read` | dv/verilator/ppcsender.c:87-114 | the reader loop prints every whole packet in the bytes it got |
| `MainLoop.Firmware.Receive` | sw/main.c:118-127 | one byte into the six-byte buffer; finished after one byte or six |
| `MainLoop.Firmware.Report` | sw/main.c:129-140 | positions when due while streaming, and one stability message, as whole packets on the wire |
| `MainLoop.Firmware.ExecuteCommand` | sw/main.c:142-206 | the effect of a finished frame on registers, flags and replies |
| `MainLoop.Firmware.SetLocation` | sw/main.c:154-202 | the register or flag a set command writes |
| `MainLoop.ServoRange` | sw/main.c:192-200 | the pulse width grows with the angle from 50000 to 99248 clocks along a line rounded down |
| `MainLoop.Firmware.Iterate` | sw/main.c:117-210 | one pass of the loop; at its head the buffer holds at most five bytes and what was sent is whole packets |
| `MainLoop.WireReadsBack` | sw/main.c:129-147 | the host recovers the packets the firmware meant from everything it sent |
| `Messages.SendsExactly` | sw/main.c:129-147 | from boot, pass by pass: positions exactly if streaming is on and a tick has come since the last ones; stability exactly if each axis has had an event since its last changed set point and no message since the last change; the version exactly for a status command |
| `MainLoop.ExecutesCommands` | sw/main.c:117-209 | whatever polls are empty and whatever reports fall between, exactly the encoded commands take effect, in order |

## Conventions

- Ring pointers count modulo the length of the ring, which is a power of two in the source; the proofs hold for any
  length of two or more.
- Serial bytes are eight booleans, least significant first; 32-bit registers are four such bytes; addresses are
  32-bit vectors; counters and positions are integers with their wrap written out.
- Addresses inside a peripheral are offsets from its base, as the interconnect forwards them.
- `RegFile.NextReg` is the arbitration of the register cell, `prim_subreg_arb`
  (vendor/lowrisc_ip/ip/prim/rtl/prim_subreg_arb.sv:32-136), and of the function the register-file scoreboard mirrors
  it with (dv/uvm/obi_reg/obi_reg_scoreboard.svh:93-137), for the access modes the peripherals use.
- Thresholds passed to the quadrature generator are taken after their conversion to an unsigned 64-bit number.

## Left out

- RegFile.Refused: register counts that do not fit in the address width, where the source truncates the count before comparing; no peripheral has one.
- SimUart.UARTDecoder.Tick: the decoder's 32-bit signed tick count, which an idle line longer than 2^31 ticks would overflow.
- UartTx.ReportsInWriteOrder: the rate is not rewritten during the run; a rewrite in the middle of a frame garbles that frame.
- UartRx.ReceivesInOrder: starts from an idle receiver that has seen the line high; `UartWake` gets there from reset.
- TimerDriver.TimerReadMtime: takes the time to stay below 2^64 while it runs and no one to write it.
- PidLoop.Converges: the plant moves one tick per fixed number of clocks in the commanded direction and does not depend on the duty.
- MainLoop.Firmware.Iterate: interrupts take effect between passes of the loop, and waiting for room in the transmit ring is not modelled.
- MotorPwm.DRV8833Decoder.Tick: reports counts; the division into ratios is floating point.
- MainLoop.Firmware.SetLocation: keeps the servo divisor 66535 as written in the source, where 65535 may have been meant.
- Asynchronous reset, metastability and undefined values; synchronizers are two-clock delays.
- Host fairness: arbitration is fixed priority and lower hosts can starve.
- The processor, the debug module, the RAM and GPIO devices, and the platform tops.
- The register files in front of the quadrature decoders and the pulse generator; clear line, period and width are inputs.
- Interrupt enables of the processor and the start-up code of the firmware.
- The UVM agents, sequences and tests other than `next_reg`.
- Terminal, pipe and process handling of the host program, text parsing of its commands, and drawing in the simulation.
- A stability message for every set point: the firmware waits for a rising edge, so a set point that keeps the response at zero causes none.
