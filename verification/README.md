# Verified models of edge_ipc_daemon

Dafny models of the three components of the repository that carry its hard guarantees, with proofs over all inputs, all
interleavings and whole runs.

- **The converter solver** (`LinearAlgebra`, `LuTheory`, `LuSolver`, `Norton`, `VscReference`, `VscNetwork`, `VscRuns`,
  `VscEnergy`, `SpwmModulator`, `HlsSolver`). In-place LU with partial pivoting for every size is proved correct down to
  uniqueness of the solution. `VscReference.Step` says what one trapezoidal step of the nine-node network is, from
  scratch: assemble, solve, update. The gate-cached C++ step, the cached Python step and the FPGA kernel with its one
  stored factorisation are each proved to take such steps. On the reference rest the physical results: existence and
  uniqueness of a step, the maximum principle, phase isolation, Kirchhoff's law, the energy balance, bounded growth, and
  contraction of any two runs.
- **The telemetry daemon** (`Ring`, `StateManager`, `MovingAverage`, `Threshold`, `Processing`, `Pipeline`,
  `SnapshotQueue`). Concurrent code is a transition system with one atomic access per step; single-threaded classes are
  classes, proved against the list of samples they have seen. `Pipeline` puts the ring, the processor and the state
  machine together and explains every fault and alarm by the frames that were pushed.
- **The frame protocol** (`Bytes`, `Crc`, `CrcOrder`, `Frame`, `SensorFrame`, `Session`, `DbPool`). The checksum is tied to
  polynomial division, and what it detects of bursts, odd errors and two-bit errors is proved; parsing is characterised
  exactly; client and server are composed over channels that deliver bytes in pieces of any size.

Numbers are exact reals. The sine is any function, bounded by one where a bound is needed, and the square root of two
and pi are parameters. Clocks, token verdicts, insert outcomes and reconnects are inputs chosen by the environment.

Some statements about the code turn out to need a condition, and are proved with it:

- SHUTDOWN is documented as a state that `halt` leaves alone (`include/StateManager.h`), but `halt` loads the state and
  exchanges it in two accesses, and an acquire load may read a value older than the newest. SHUTDOWN is final, for halts
  called by threads that know of the shutdown, exactly when no earlier halt is left that has read an older state or was
  called without that knowledge and has yet to read. A later halt by a thread that has not learnt of the shutdown can
  always leave it.
- The pool hands out connections by counting, not by which one is free. Two callers can come to share a connection
  exactly when at most six permits have been lost to failed reconnects, in particular from a fresh pool. Releasing in
  acquisition order is what prevents it.
- An alarm that finds the daemon RUNNING can still be missed: a compare-exchange that fails is a load and may read a
  state from before the last start. It cannot be missed exactly when the state has been RUNNING ever since the last
  transition the drain loop's thread knew of.
- Two flipped bits change the checksum exactly when their distance is no multiple of 32767.

Sizes are computed in 32 bits where the source does so. If twelve plus a length wraps, the source's buffer is shorter
than the header it then copies, and it writes past the end. The model ends the read or the write there with the outcome
`Overrun`, and says exactly for which bytes that happens; nothing is claimed about the program afterwards.

## Model

| member | source | states |
|---|---|---|
| `LuSolver.FindPivot` | fpga_power_electronics_hil/vsc_solver/include/LuSolver.h:14-19 | the row returned has the largest magnitude in the column from row k down, and is the first such row |
| `LuSolver.SwapRows` | fpga_power_electronics_hil/vsc_solver/include/LuSolver.h:22-26 | whole rows are exchanged, the stored multipliers with them, and nothing else changes |
| `LuSolver.EliminateRow` | fpga_power_electronics_hil/vsc_solver/include/LuSolver.h:29-31 | row i becomes its multiplier followed by the row minus multiplier times pivot row |
| `LuSolver.LuFactor` | fpga_power_electronics_hil/vsc_solver/include/LuSolver.h:11-34 | for every N and every matrix: if no error is raised, A and pivot hold a factorisation of the original and the original is nonsingular; if one is raised, a singular matrix lies within 1e-15 of it entry by entry; a column-dominant matrix never raises it and never swaps |
| `LuSolver.LuSolve` | fpga_power_electronics_hil/vsc_solver/include/LuSolver.h:39-57 | x solves A x = b for the original A, and no other vector does |
| `LuTheory.StageSwap` | fpga_power_electronics_hil/vsc_solver/include/LuSolver.h:22-26 | a full-row swap of the partly factored array keeps "swapped original = L times U" for the rows swapped the same way |
| `LuTheory.StageEliminate` | fpga_power_electronics_hil/vsc_solver/include/LuSolver.h:27-32 | one column of elimination carries "original = L times U" from k to k + 1 stored columns |
| `LuTheory.FactorProduct` | fpga_power_electronics_hil/vsc_solver/include/LuSolver.h:11-34 | entry by entry, the original with the recorded swaps replayed is the product of the stored unit lower and upper triangles |
| `LuTheory.FactorSolves` | fpga_power_electronics_hil/vsc_solver/include/LuSolver.h:39-57 | replayed swaps, forward and back substitution together solve the original system |
| `LuTheory.FactorNonsingular` | fpga_power_electronics_hil/vsc_solver/include/LuSolver.h:11-34 | a matrix with a factorisation has only the zero kernel |
| `LuTheory.NonsingularUnique` | fpga_power_electronics_hil/vsc_solver/include/LuSolver.h:39-57 | two solutions of a system with zero kernel are equal |
| `LuTheory.NoPivotNearlySingular` | fpga_power_electronics_hil/vsc_solver/include/LuSolver.h:16-20 | if no usable pivot is left, a singular matrix lies within 1e-15 of the original entry by entry |
| `LuTheory.SchurKeepsGap` | fpga_power_electronics_hil/vsc_solver/include/LuSolver.h:27-32 | an elimination step keeps the column dominance of the remaining block, with the same gap |
| `LuTheory.DominantColumn` | fpga_power_electronics_hil/vsc_solver/include/LuSolver.h:13-22 | in a dominant block the diagonal is the strict maximum of its column and at least the gap, so the pivot search stays |
| `LuTheory.OneByOne` | fpga_power_electronics_hil/vsc_solver/include/LuSolver.h:16-20 | a matrix of one entry has a singular matrix within the pivot threshold if and only if the entry lies strictly between -1e-15 and 1e-15, and then it has no factorisation |
| `Norton.InductorTrapezoidal` | fpga_power_electronics_hil/vsc_solver/src/NortonUpdate.cpp:5-16 | the companion current equals the next branch current if and only if the RL branch obeys the trapezoidal rule |
| `Norton.CapacitorTrapezoidal` | fpga_power_electronics_hil/vsc_solver/src/NortonUpdate.cpp:10-20 | the companion current equals the next capacitor current if and only if the capacitor obeys the trapezoidal rule |
| `VscNetwork.Stamp` | fpga_power_electronics_hil/vsc_solver/src/VscNetwork.cpp:14-21 | a branch conductance is added to its diagonal entries and subtracted from its off-diagonal pair; every other entry is kept |
| `VscNetwork.Assemble` | fpga_power_electronics_hil/vsc_solver/src/VscNetwork.cpp:30-64 | the stamping loops produce the conductance matrix of the circuit for that gate byte |
| `VscReference.GDominant` | fpga_power_electronics_hil/vsc_solver/src/VscNetwork.cpp:30-64 | for positive parameters, ground conductances of at least 1e-15 and any gate byte the matrix is column-dominant with gap 1e-15 |
| `VscNetwork.AccumulateInjection` | fpga_power_electronics_hil/vsc_solver/src/VscNetwork.cpp:78-103 | the accumulated injections are, node by node, the history, source and switch currents; VscEnergy.StepCircuit says which switch and which source |
| `VscNetwork.DetectFault` | fpga_power_electronics_hil/vsc_solver/src/VscNetwork.cpp:109-114 | the fault flag is set exactly when some voltage exceeds twice the rating |
| `VscNetwork.UpdateBranches` | fpga_power_electronics_hil/vsc_solver/src/VscNetwork.cpp:116-133 | branch currents and histories of all three phases become the companion values at the new voltages, nothing else changes |
| `VscNetwork.Network.constructor` | fpga_power_electronics_hil/vsc_solver/src/VscNetwork.cpp:23-28 | the cache starts with the factorisation for all gates off |
| `VscNetwork.Network.AssembleAndFactor` | fpga_power_electronics_hil/vsc_solver/src/VscNetwork.cpp:30-70 | afterwards the cached factors belong to that gate byte; it cannot fail for valid parameters |
| `VscNetwork.Network.Step` | fpga_power_electronics_hil/vsc_solver/src/VscNetwork.cpp:72-140 | the cached step is a step of the reference that assembles and solves from scratch for the given gate, from every cache state |
| `VscReference.StepDeterministic` | fpga_power_electronics_hil/vsc_solver/src/VscNetwork.cpp:72-140 | the reference step has at most one outcome |
| `VscRuns.StepExistsUnique` | fpga_power_electronics_hil/vsc_solver/src/VscNetwork.cpp:72-140 | every state has exactly one successor under every gate byte |
| `VscReference.MaximumPrinciple` | fpga_power_electronics_hil/vsc_solver/src/VscNetwork.cpp:105-107 | every solved voltage, times the smallest ground conductance, is at most the largest injection |
| `VscReference.FaultNeedsInjection` | fpga_power_electronics_hil/vsc_solver/src/VscNetwork.cpp:105-114 | a raised fault means some injection exceeds twice the rating times the smallest ground conductance |
| `VscReference.SolvesByPhase` | fpga_power_electronics_hil/vsc_solver/src/VscNetwork.cpp:33-64 | the nine node equations hold if and only if the three equations of each phase do |
| `VscRuns.StepIsolation` | fpga_power_electronics_hil/vsc_solver/src/VscNetwork.cpp:81-133 | one step of phase k depends only on the gate bits, source and memory of phase k |
| `VscRuns.RunIsolation` | fpga_power_electronics_hil/vsc_solver/src/VscNetwork.cpp:72-140 | over whole runs, phases with the same gate bits and initial memory evolve identically whatever the other phases do |
| `VscEnergy.StepKirchhoff` | fpga_power_electronics_hil/vsc_solver/src/VscNetwork.cpp:105-137 | after a step the currents balance at the three nodes of each phase |
| `VscEnergy.StepCircuit` | fpga_power_electronics_hil/vsc_solver/src/VscNetwork.cpp:78-137 | for every gate byte, also one with both or neither switch of a leg on: the filter current of phase k is g_u (V_dc - v) - g_l v, where bit 2k decides g_u and bit 2k + 1 decides g_l between G_on and G_off; filter current is capacitor current plus grid current; the grid current is what V_rms sqrt(2) sin(2 pi f t - 2 pi k / 3) draws through R_src |
| `VscEnergy.StepFlags` | fpga_power_electronics_hil/vsc_solver/src/VscNetwork.cpp:76-139 | time advances by dt, the gate byte is kept, and the fault flag is set if and only if one of the nine voltages is above 2 V_rated or below -2 V_rated |
| `VscEnergy.GridDelay` | fpga_power_electronics_hil/vsc_solver/src/VscNetwork.cpp:93-97 | phase k of the grid is phase 0 delayed by k thirds of a period |
| `VscEnergy.StepTrapezoidal` | fpga_power_electronics_hil/vsc_solver/src/VscNetwork.cpp:116-133 | each of the three branches of a phase satisfies its trapezoidal equation between consecutive states |
| `VscEnergy.EnergyBalance` | fpga_power_electronics_hil/vsc_solver/src/VscNetwork.cpp:116-137 | the change of stored energy over a step is exactly the power of the sources minus the resistor losses at the midpoint |
| `VscEnergy.RestSettled` | fpga_power_electronics_hil/vsc_solver/include/VscNetwork.h:32-44 | the state at rest is settled: its histories fit and its currents balance under sources within the limits |
| `VscEnergy.StepSettled` | fpga_power_electronics_hil/vsc_solver/src/VscNetwork.cpp:72-140 | every state a step under a complementary gate leads to is settled, whatever it started from |
| `VscEnergy.StepGrowth` | fpga_power_electronics_hil/vsc_solver/src/VscNetwork.cpp:72-140 | from a settled state a step under a complementary gate adds at most the per-step limit to the stored energy |
| `VscEnergy.DesignBound` | fpga_power_electronics_hil/vsc_solver/src/VscNetwork.cpp:78-137 | the per-step limit is 3 dt (V_dc^2 / (4 (R_f + 1/(G_on + G_off))) + V_peak^2 / (4 (R_grid + R_src))) |
| `VscEnergy.RunGrowth` | fpga_power_electronics_hil/vsc_solver/src/VscNetwork.cpp:72-140 | between any two moments of a run the stored energy grows at most linearly with that limit; the first step is included if the run starts settled, and excluded only for runs from an arbitrary unsettled state |
| `VscEnergy.EnergyFromRest` | fpga_power_electronics_hil/vsc_solver/src/VscNetwork.cpp:72-140 | a simulation started at rest holds at most n times the limit after n steps |
| `VscEnergy.StepContraction` | fpga_power_electronics_hil/vsc_solver/src/VscNetwork.cpp:72-140 | under the same complementary gates and time, a step never moves two states apart in stored-energy distance |
| `VscEnergy.RunContraction` | fpga_power_electronics_hil/vsc_solver/src/VscNetwork.cpp:72-140 | from the first step onward the distance of any two runs under the same gates never increases |
| `VscEnergy.StrictContraction` | fpga_power_electronics_hil/vsc_solver/src/VscNetwork.cpp:72-140 | over any two steps it strictly decreases, unless it is zero |
| `VscEnergy.ComplementaryMatrix` | fpga_power_electronics_hil/hil/controller.py:53-65 | all complementary gate bytes give the same conductance matrix |
| `SpwmModulator.Carrier` | fpga_power_electronics_hil/hil/controller.py:48-51 | the carrier stays within [-1, 1] |
| `SpwmModulator.CarrierPeriodic` | fpga_power_electronics_hil/hil/controller.py:48-51 | the carrier repeats after one period, at every time |
| `SpwmModulator.CarrierMirror` | fpga_power_electronics_hil/hil/controller.py:48-51 | it is symmetric about the middle of a period |
| `SpwmModulator.CarrierRises` | fpga_power_electronics_hil/hil/controller.py:48-51 | over the first half of a period it rises with slope 4 / period |
| `SpwmModulator.CarrierQuarters` | fpga_power_electronics_hil/hil/controller.py:41-51 | it is -1 at the start of a period, 0 at the first quarter where the modulator begins, 1 in the middle and 0 at the third quarter |
| `SpwmModulator.Modulator.Modulate` | fpga_power_electronics_hil/hil/controller.py:53-65 | exactly one switch of each phase is on: the upper one if and only if the duty exceeds the carrier |
| `VscNetwork.StampPhase` | fpga_power_electronics_hil/hil/vsc_model.py:68-77 | one pass of the Python loop adds the stamps of one phase |
| `VscNetwork.AssembleByPhase` | fpga_power_electronics_hil/hil/vsc_model.py:61-78 | the phase-by-phase assembly gives the same matrix as the branch-by-branch one |
| `VscNetwork.PyNetwork.Step` | fpga_power_electronics_hil/hil/vsc_model.py:103-171 | given a linear solver that solves, the cached Python step is a step of the same reference |
| `HlsSolver.NortonUpdate` | fpga_power_electronics_hil/hls_solver/norton_update.cpp:22-66 | the kernel's injection vector is the one of its packed histories, gate bits and time |
| `HlsSolver.KernelDelay` | fpga_power_electronics_hil/hls_solver/norton_update.cpp:14-60 | the programmed grid is a 50 Hz sine of 230 sqrt(2) V with the constants of the source, phase k delayed by k / 150 s |
| `HlsSolver.ForwardSub` | fpga_power_electronics_hil/hls_solver/lu_solve.cpp:13-26 | y solves the unit lower triangular system |
| `HlsSolver.KernelSolve` | fpga_power_electronics_hil/hls_solver/lu_solve.cpp:49-72 | the right-hand side gathered by piv is solved through L and U |
| `HlsSolver.ReadingsAgreeIff` | fpga_power_electronics_hil/hls_solver/lu_solve.cpp:61-65 | reading piv as a permutation and as a list of swaps agree on every vector if and only if piv is the identity |
| `HlsSolver.UpdateHistory` | fpga_power_electronics_hil/hls_solver/norton_update.cpp:71-101 | packed histories and branch currents of all phases are the companion values |
| `HlsSolver.Kernel.SolverTop` | fpga_power_electronics_hil/hls_solver/solver_top.cpp:62-93 | one call is one kernel step on the static state, and the stream carries the new voltages with `last` on the ninth |
| `HlsSolver.Kernel.constructor` | fpga_power_electronics_hil/hls_solver/solver_top.cpp:40-47 | programs a kernel with the triangles and pivots the host solver has cached, its own state zero |
| `HlsSolver.HostPrograms` | fpga_power_electronics_hil/hls_solver/solver_top.cpp:40-47 | the factors the host solver has cached for any complementary gate byte are a correct programming of the kernel |
| `HlsSolver.KernelStepIsReference` | fpga_power_electronics_hil/hls_solver/solver_top.cpp:62-93 | with L, U and piv factored for any complementary gate, a kernel step under any other complementary gate is the reference step |
| `HlsSolver.KernelRunIsReference` | fpga_power_electronics_hil/hls_solver/solver_top.cpp:42-93 | so with one factorisation the kernel follows the refactoring solver on every run with matching parameters |
| `HlsSolver.CoSimulate` | fpga_power_electronics_hil/hls_solver/solver_top.cpp:42-93 | driven side by side from rest over any list of complementary gates, the host takes the reference run under those gates and the kernel, programmed once, holds the same voltages, histories and time after every step |
| `Crc.Crc16` | async_telemetry_server/src/FrameProtocol.cpp:9-21 | the nested byte and bit loops compute the bit-serial checksum of the message |
| `Crc.ByteAtOnce` | async_telemetry_server/src/FrameProtocol.cpp:12-18 | adding a byte at the top and shifting eight times is feeding its eight bits one by one |
| `Crc.ChecksumIsRemainder` | async_telemetry_server/src/FrameProtocol.cpp:8-21 | the checksum is the remainder on long division over GF(2) of the message, its first sixteen bits complemented and sixteen zeros appended, by x^16 + x^12 + x^5 + 1 |
| `Crc.FeedDifference` | async_telemetry_server/src/FrameProtocol.cpp:9-21 | the difference of two registers evolves by feeding the difference of the messages |
| `Crc.CheckValue` | async_telemetry_server/tests/test_protocol.cpp:11-25 | the checksum of the nine ASCII digits is 0x29B1 and that of no bytes 0xFFFF |
| `Crc.BurstDetected` | async_telemetry_server/src/FrameProtocol.cpp:9-21 | different messages of equal length whose differing bits lie within sixteen consecutive bits have different checksums |
| `Crc.OddErrorDetected` | async_telemetry_server/src/FrameProtocol.cpp:9-21 | messages of equal length that differ in an odd number of bits have different checksums |
| `CrcOrder.PeriodIff` | async_telemetry_server/src/FrameProtocol.cpp:13-18 | a register that starts at one returns to one exactly after the multiples of 32767 shifts |
| `CrcOrder.TwoBitErrorIff` | async_telemetry_server/src/FrameProtocol.cpp:9-21 | two flipped bits, in a message of any length, leave the checksum unchanged if and only if they are a multiple of 32767 positions apart |
| `Frame.BufferHoldsIff` | async_telemetry_server/src/FrameProtocol.cpp:29-41 | the buffer size computed in 32 bits holds the header if and only if twelve plus the length does not wrap |
| `Frame.Serialize` | async_telemetry_server/src/FrameProtocol.cpp:23-47 | for every payload: the buffer filled at an advancing offset is the encoding, with the length cut to 32 bits; if twelve plus that length wraps, the buffer is too small and the outcome is Overrun |
| `Frame.HeaderBytes` | async_telemetry_server/src/FrameProtocol.cpp:29-46 | the encoding byte by byte: 4E 45 58 54 01, the type, the length in four bytes and the checksum in two, most significant first, then the payload |
| `Frame.Deserialize` | async_telemetry_server/src/FrameProtocol.cpp:49-84 | the checks in their order give the decoding, and an accepted frame's encoding begins the buffer |
| `Frame.DecodeFailsIff` | async_telemetry_server/src/FrameProtocol.cpp:49-84 | each of the five failures if and only if, on the raw bytes: fewer than 12, another magic, another version, fewer bytes than the big-endian length asks for, or a checksum other than the big-endian one |
| `Frame.DecodeIffPrefix` | async_telemetry_server/src/FrameProtocol.cpp:23-84 | a buffer decodes to a frame if and only if it begins with that frame's encoding |
| `Frame.DecodeExact` | async_telemetry_server/src/FrameProtocol.cpp:49-84 | an accepted buffer re-serializes to its own first 12 + length bytes |
| `Frame.RoundTrip` | async_telemetry_server/src/FrameProtocol.cpp:23-84 | an encoding followed by anything decodes to the frame |
| `Frame.BurstRejected` | async_telemetry_server/src/FrameProtocol.cpp:76-81 | a payload damaged within sixteen consecutive bits, at any length and place, is always rejected as a CRC mismatch |
| `Frame.OddDamageRejected` | async_telemetry_server/src/FrameProtocol.cpp:76-81 | a payload with an odd number of flipped bits is always rejected as a CRC mismatch |
| `Frame.TwoBitDamageIff` | async_telemetry_server/src/FrameProtocol.cpp:76-81 | a payload with two flipped bits is rejected as a CRC mismatch unless they are a multiple of 32767 positions apart, and then it is accepted |
| `Frame.Socket.Receive` | async_telemetry_server/src/TcpServer.cpp:23-39 | for every byte stream: the header, then the announced bytes, then the parse; end of stream and a wrapping size come before the parse |
| `Frame.OverrunIff` | async_telemetry_server/src/TcpServer.cpp:28-33 | a read overruns its buffer if and only if a whole header has come and twelve plus the length it announces wraps |
| `Frame.OverrunHeader` | async_telemetry_server/src/TcpServer.cpp:28-33 | such a header exists for every message type: twelve bytes that announce a length of 2^32 - 1 |
| `Frame.StreamIffWire` | async_telemetry_server/src/TcpServer.cpp:23-46 | repeated reading returns a list of frames and a rest if and only if the stream is their encodings in order followed by that rest and none is so long that its size wraps |
| `Frame.PartialWaits` | async_telemetry_server/src/TcpServer.cpp:23-39 | no proper prefix of an encoding can be read as a frame |
| `SensorFrame.Serialize` | async_telemetry_server/include/SensorFrame.h:15-22 | three copies at a moving offset lay out the twenty-byte payload |
| `SensorFrame.PayloadBytes` | async_telemetry_server/include/SensorFrame.h:15-22 | byte i of the sensor number, the stamp and the value, at offsets 0, 4 and 12, is the digit of weight 256^i |
| `SensorFrame.ParsePayload` | async_telemetry_server/src/TcpServer.cpp:84-91 | the server reads back exactly the reading the client packed |
| `Session.NoRowBeforeAuth` | async_telemetry_server/src/TcpServer.cpp:48-106 | for every byte stream of every peer: the bytes consumed are the encodings of the frames read, and the session is Exact; rows exist only if the first frame has type 1, its token was accepted and the log is the one AUTH_OK entry for the subject, "unknown" if it is empty; they are the twenty-byte readings of the following frames, all of type 2, in order, at most the last excepted |
| `Session.MoveRecorded` | async_telemetry_server/src/TcpServer.cpp:23-106 | the history records exactly what happened: each frame read, the failed read, the verdict on the token, each insert and each reply |
| `Session.MoveExact` | async_telemetry_server/src/TcpServer.cpp:48-106 | every move keeps the server at the point its history asks for: refusal of a first frame that is not of type 1, AUTH_OK or AUTH_FAIL_SIG logged by the verdict under the subject or "unknown", closing on a frame that is not of type 2, one insert per reading and one reply per frame, ERROR or ACK |
| `Session.SessionExact` | async_telemetry_server/src/TcpServer.cpp:48-106 | so does every session of any length |
| `Session.StepInv` | async_telemetry_server/src/TelemetryClient.cpp:44-98 | every step of client, server and network keeps the lockstep invariant that ties both sides, both channels, the log and the rows |
| `Session.RowsArePrefix` | async_telemetry_server/src/TcpServer.cpp:79-93 | in every reachable state the rows are the first readings of the client, in order, under the logged subject |
| `Session.OneFrameInFlight` | async_telemetry_server/src/TelemetryClient.cpp:53-96 | the two channels together never hold more than one frame |
| `Session.NeverBothWait` | async_telemetry_server/src/TelemetryClient.cpp:53-96 | when both sides wait, exactly one frame is on its way |
| `Session.Progress` | async_telemetry_server/src/TcpServer.cpp:48-106 | until both sides have finished some step is possible |
| `Session.RunsEnd` | async_telemetry_server/src/TelemetryClient.cpp:75-96 | every run of a session of n readings ends: at most 5 n + 7 protocol steps, each with at most a frame of byte deliveries |
| `Session.Outcome` | async_telemetry_server/src/TcpServer.cpp:48-106 | a run that can go no further has finished on both sides; with an accepted token and no failed insert the rows are exactly the client's readings under the validated subject |
| `DbPool.Pool.Acquire` | async_telemetry_server/src/DbPool.cpp:13-25 | the call waits exactly when no permit is free; otherwise it is a semaphore step and an assign step of the pool: permit and index move even if reconnecting throws, which happens exactly when the indexed connection is closed and cannot be reopened |
| `DbPool.Pool.Lose` | async_telemetry_server/src/DbPool.cpp:13-16 | a connection closed from outside: nothing else changes, and the next acquire to reach it has to reconnect |
| `DbPool.Pool.Release` | async_telemetry_server/src/DbPool.cpp:27-29 | the release step of the pool for the caller's ticket |
| `DbPool.Insert` | async_telemetry_server/src/TelemetryRepository.cpp:6-44 | a call gives its ticket back on success and on a failed statement, loses its permit only if it got no connection, and touches no other caller's ticket |
| `DbPool.Conservation` | async_telemetry_server/src/DbPool.cpp:18-29 | in every interleaving, free permits, callers and acquires that failed while reconnecting add up to eight, and the index is the number of acquires mod eight |
| `DbPool.EightPermits` | async_telemetry_server/src/DbPool.cpp:18-29 | from a fresh pool: free permits, callers entering, callers holding and failed acquires always add up to 8, and the index is the number of acquires mod 8 |
| `DbPool.Exhausted` | async_telemetry_server/src/DbPool.cpp:18-29 | after eight failed reconnects no caller can acquire again |
| `DbPool.OrderedNeverShares` | async_telemetry_server/src/DbPool.cpp:18-29 | if releases follow acquisition order, holders stay within a cyclic window of eight and never share a connection, failed reconnects included |
| `DbPool.CanShare` | async_telemetry_server/src/DbPool.cpp:18-29 | from any state with a free permit and a holder some run keeps the holder and gives its connection to a second caller |
| `DbPool.SharingReachableIff` | async_telemetry_server/src/DbPool.cpp:18-29 | from any reachable state, two callers can come to hold one connection if and only if at most six permits have been lost to failed reconnects |
| `DbPool.FreshPoolCanShare` | async_telemetry_server/src/DbPool.cpp:6-29 | a run from the initial pool that ends with a connection held twice |
| `Ring.StepInv` | src/TelemetryReceiver.cpp:3-21 | every atomic step of either side, with late views of the other index and slot copies in two steps, keeps the ring invariant |
| `Ring.Guarantees` | src/TelemetryReceiver.cpp:3-21 | in every interleaving the popped frames are a prefix of the accepted ones, at most 1023 are held, accepted and dropped make the completed pushes, and no slot is written while it is read |
| `Ring.DropIff` | src/TelemetryReceiver.cpp:3-9 | a push is dropped if and only if its view of the head shows 1023 frames held |
| `Ring.EmptyIff` | src/TelemetryReceiver.cpp:15-17 | a pop returns nothing if and only if its view of the tail shows nothing beyond what was popped |
| `Ring.NeverBlocks` | src/TelemetryReceiver.cpp:3-21 | each side always has a step to take, whatever the other does, and the slot it reads or writes is there |
| `StateManager.OneChain` | src/StateManager.cpp:14-61 | under any interleaving of any calls, with loads and failing compare-exchanges that may read late, the transitions form one chain from IDLE to the current state, each lawful for its call |
| `StateManager.StartRuns` | src/StateManager.cpp:14-30 | from IDLE or FAULT a start that is not interrupted ends in RUNNING with one callback for that transition and nothing else changed |
| `StateManager.StartThrowsIff` | src/StateManager.cpp:14-30 | at its load or a compare-exchange that fails, start throws if and only if the state it read is RUNNING or SHUTDOWN; otherwise it retries with the state it read, and nothing else changes |
| `StateManager.HaltRuns` | src/StateManager.cpp:32-35 | from any state but SHUTDOWN an uninterrupted halt ends in IDLE with one callback |
| `StateManager.HaltIgnored` | src/StateManager.cpp:32-33 | from SHUTDOWN it returns with nothing changed |
| `StateManager.ShutdownRuns` | src/StateManager.cpp:52-61 | from any state an uninterrupted shutdown ends in SHUTDOWN with one callback |
| `StateManager.FaultRuns` | src/StateManager.cpp:37-50 | from RUNNING an uninterrupted fault ends in FAULT, calls the state callback first and then the alarm callback with its data |
| `StateManager.FaultIgnored` | src/StateManager.cpp:37-43 | from any other state it returns with nothing changed |
| `StateManager.CallbacksBalance` | src/StateManager.cpp:27-61 | when all calls have finished, the callbacks fired are the transitions made, in some order, so entries and exits balance for every state |
| `StateManager.OneAlarmPerFault` | src/StateManager.cpp:37-50 | when all calls have finished there is exactly one alarm per entry into FAULT, with that call's data |
| `StateManager.ShutdownLeftByHalt` | src/StateManager.cpp:32-61 | a transition out of SHUTDOWN is the exchange of a halt whose load read a state from before that SHUTDOWN was entered |
| `StateManager.ShutdownFinalIff` | src/StateManager.cpp:32-35 | from a reachable SHUTDOWN state, no continuation whose halts are called by threads that know of the shutdown leaves it if and only if no earlier halt is left that has read an older state or may still read one |
| `StateManager.UnawareHaltLeaves` | src/StateManager.cpp:32-35 | a halt called by a thread that has not learnt of the shutdown can leave SHUTDOWN from any such state |
| `StateManager.ShutdownCanBeLeft` | src/StateManager.cpp:32-35 | a SHUTDOWN state with such a halt is reachable, so SHUTDOWN is not final in general |
| `MovingAverage.MovingAverageFilter.Apply` | src/MovingAverageFilter.cpp:7-14 | the result is the arithmetic mean of the last `window` samples, or of all if there are fewer |
| `MovingAverage.MeanBounds` | src/MovingAverageFilter.cpp:7-14 | the filtered value lies between any bounds that hold for the samples in the window |
| `MovingAverage.SumSlides` | src/MovingAverageFilter.cpp:8-11 | the sum of the window changes by the new sample and, if the window was full, the oldest one |
| `MovingAverage.MovingAverageFilter.Reset` | src/MovingAverageFilter.cpp:16-21 | afterwards the filter is as new |
| `Threshold.ThresholdDetector.Apply` | src/ThresholdDetector.cpp:6-14 | the sample passes through, and the alarm is on exactly when there are k samples and each of the last k is above the high or below the low mark, a k below one counting as one |
| `Threshold.AlarmedIff` | src/ThresholdDetector.cpp:6-14 | the counter reaching k is the same as the last k samples being out of band; a k below one means one |
| `Threshold.AlarmedSamples` | src/ThresholdDetector.cpp:6-14 | the alarm in the samples themselves: strictly above the high or strictly below the low mark, one by one |
| `Threshold.ThresholdDetector.Reset` | src/ThresholdDetector.cpp:16-19 | afterwards the detector is as new |
| `Processing.DataProcessor.Process` | src/DataProcessor.cpp:6-10 | the metric carries the frame's sensor, the mean of the last raw samples and the alarm over the raw samples |
| `Processing.DataProcessor.Reset` | src/DataProcessor.cpp:12-15 | both parts are as new |
| `Pipeline.StepInv` | src/main.cpp:54-73 | every step of producer, ring, drain loop and concurrent control calls keeps the invariant that each pending or past fault is explained by frames popped |
| `Pipeline.FaultEntry` | src/main.cpp:67-73 | a step enters FAULT only from RUNNING, and then the last k frames popped, consecutive accepted pushes, were out of band and the alarm carries exactly the mean of the last `window` raw samples |
| `Pipeline.FaultCallsExact` | src/main.cpp:67-73 | the loop has called fault exactly once, in order, for each moment at which the frames processed ended in k samples out of band |
| `Pipeline.FaultCalledIff` | src/main.cpp:69-72 | processing a frame calls fault if and only if the frames popped so far end in k samples out of band, with the alarm of those frames |
| `Pipeline.DaemonCallsIff` | src/main.cpp:50-73 | with the daemon's settings, in every run: processing a frame calls fault if and only if at least three frames were popped and each of the last three is above 80 or below 20; the call carries the sensor, the mean of the last ten or fewer, and 80 |
| `Pipeline.FaultTakenIff` | src/StateManager.cpp:37-43 | that call enters FAULT whatever value its compare-exchange reads if and only if the state has been RUNNING ever since the last transition the calling thread knew of; otherwise it can be missed |
| `Pipeline.FaultsExplained` | src/main.cpp:54-73 | every FAULT entry of any run left RUNNING and is explained by a prefix of the accepted frames |
| `Pipeline.AlarmsExplained` | src/main.cpp:67-73 | every alarm raised in any run is explained by a prefix of the accepted frames |
| `Pipeline.DaemonFault` | src/main.cpp:50-73 | with the daemon's settings: FAULT is entered only with each of the last three samples popped above 80 or below 20, and the alarm holds the sensor, the mean of the last ten or fewer, and 80 |
| `SnapshotQueue.Queue.Push` | secure_distributed_node/src/TelemetryNode.cpp:132-140 | the oldest snapshot is dropped if the queue is full, and the new one is last |
| `SnapshotQueue.EvictsIff` | secure_distributed_node/src/TelemetryNode.cpp:132-140 | after any run a push evicts if and only if 256 snapshots are queued, and then the oldest one |
| `SnapshotQueue.Queue.Pop` | secure_distributed_node/src/TelemetryNode.cpp:142-154 | the oldest queued snapshot is handed out, or none if the queue is empty |
| `SnapshotQueue.SeenIncreases` | secure_distributed_node/src/TelemetryNode.cpp:27-46 | each reader sees strictly increasing production numbers |
| `SnapshotQueue.Guarantees` | secure_distributed_node/src/TelemetryNode.cpp:132-190 | with any number of readers the queue is the last at most 256 snapshots pushed, each snapshot goes to at most one reader, each reader sees production order, and delivered, evicted and queued make up everything pushed |

## Left out

- IEEE rounding, infinities and NaN, and the fixed-point quantisation and pragmas of the FPGA kernel: every result is
  over exact reals.
- The kernel's literal 230 V, 50 Hz and its decimals of the square root of two are taken as the same parameters as the
  host's.
- VscEnergy.RunGrowth: a run from a state whose histories do not fit its voltages and currents has no bound on its first
  step.
- Solver parameters that are not positive: the source then divides by zero or loses dominance, and nothing is claimed.
- `I_snub_hist` and `C_snub`: no solver reads them.
- VscNetwork.Network.Step: the state's small arrays are modelled as sequence-valued fields of one object; aliasing of
  separate arrays is not captured.
- VscNetwork.PyNetwork.Step: the library factorisation is an oracle that solves the given matrix.
- Frame.Serialize, Frame.Socket.Receive: what the source does after writing past its buffer is not modelled; the outcome
  `Overrun` stands for it.
- Session.StepInv: the network loses nothing and resets no connection while a side is alive; a peer's close is seen
  after its last byte.
- Session.NoRowBeforeAuth: a header whose size wraps ends the session, with the same caveat.
- SensorFrame.ParsePayload: a floating-point value is its 64-bit pattern, and both hosts are little-endian.
- StateManager.OneChain: callbacks are installed throughout and do not call back into the manager.
- Ring.Guarantees: the dropped counter does not wrap at 2^64. Late views cover the acquire loads; slot contents are
  those of the last completed copy, which the absence of races justifies.
- MovingAverage.MovingAverageFilter.Apply: a window of zero, which the source accepts and for which it then reads an empty
  buffer and takes a remainder by zero, is excluded by the constructor.
- Threshold.ThresholdDetector.Apply: the consecutive counter does not wrap.
- Pipeline.StepInv: the node's variant of the loop, which tests the state before calling fault and reports the raw
  sample, is not modelled.
- Ring.StepInv, StateManager.OneChain, Session.StepInv: operations that interleave are steps of a transition system on
  values rather than methods on objects.
- TLS, token validation, gRPC, D-Bus, PostgreSQL and Boost.Asio internals: they appear only as outcomes.
- `async_telemetry_server/src/TlsServer.cpp`: the same session after a handshake.
- `secure_distributed_node/src/TelemetryCoordinator.cpp`, `opcua_edge_server`, the simulated and file sources, the PI
  controller and the harmonic analysis: they would only add easy members or numerical claims.
