# sisRV: the pipelined core against its instruction set

A model, in Dafny, of the RISC-V core `sisRvCore` and of the hardware around it, with proofs that hold for every
program, every run and every bus-latency schedule the model admits. Registers are records; the wires of a clock are
functions of them; each clocked process is a function from registers and inputs to registers, and a class whose
`Clock` method makes the process's assignments in order and is proved equal to that function.

The main results:

* `RefineTheorem.PipelineRefinesIsa` - the fetch stage, ID, EX/MEM and WB, with bypass, stalls, redirects, traps,
  interrupts and LR/SC/AMO, over any bus latencies, do exactly what a sequential interpreter does: same log of
  (pc, register write, trap or CSR command, retired), same registers, RAM, CSRs and reservation.
* `RefineTrace.BusCarriesIsaAccesses` - the data bus carries the interpreter's accesses, inside and outside RAM, each
  once and in program order, and none for a suppressed access.
* `Platform.PlatformRefinesIsa` and `AxiPlatform.PlatformRefinesIsa` - so does the core with its ROM, data fabric and
  RAM, and the core on the arbiter, AXI4-Lite bridge and stalling slave, over every run of the whole.
* `CoreRuns.CoreTrapsArePrecise`, `CoreRuns.CoreFetchesAreAligned`, `CoreRuns.CoreScSucceedsAfterLr` - what that says of
  the core's own registers from reset on: precise traps, aligned pcs, LR/SC.
* `Privilege.PrivilegeNeedsEmptyPipe`, `Privilege.ServedWordsAreChecked`, `Atomics.ScReturnsZero`,
  `Atomics.AmoIsTwoBeats` - traps and returns on an empty pipeline, execute checks, and LR/SC/AMO over every run from
  reset, with no condition on programs or inputs.
* `Ordinary.OrdinaryProgramsRefine` - for most programs the only condition left on a run is that no AMO read is answered
  with an error.
* `Progress.InstructionsKeepCompleting` - whenever both buses cooperate for twenty clocks, whatever the stalls in
  between, an instruction completes.
* `FetchRun.StreamIsParsed` and `FetchRun.EmitsWithinFour` - fetch buffer, prefetch slot, straddling and discarding
  refine a halfword parser, and an instruction never takes more than four bus answers.
* `DecodeProof.ExpansionMeans`, `Arithmetic.Shifts`, `Arithmetic.Products`, `Arithmetic.SignedDivision`,
  `PmpProof.NapotExact`, `PmpDecision.DecisionIsTheSpecification` - decompressor, integer arithmetic from the encoding to
  the number, and PMP arithmetic against the specifications.
* `ControlBits.TrapTargets`, `ControlBits.DataLevel`, `ControlBits.RegisterOperations` - where traps and interrupts go,
  the privilege of data accesses and the CSR operations, by bit positions.
* `PmpLock.LockedIsImmutable`, `CsrProof.TrapRoundTrip`, `CsrProof.StatusOverRuns` - whole runs of the CSR unit.
* `AxiPath.PathIsAtomicMemory`, `AxiBridge.ExactlyOnce` - arbiter, AXI4-Lite bridge and stalling slave are an atomic
  memory.

## How it is laid out

`Words`, `Logs` - machine words, logs of runs. `Fetch`, `FetchStage`, `FetchProof`, `FetchRun`, `InstructionBus` - the
fetch stage and its bus. `Instr`, `Decoder`, `DecodeProof`, `MulDiv`, `Isa` - instruction set, RTL decoder and
decompressor, arithmetic, the interpreter. `Pipeline`, `CoreRegs`, `Memory`, `DataPath`, `System` - the core behind
fetch, its classes, and the closed system. `Digits` - words as numbers, with adder, subtractor and shifter followed bit
by bit. `Arithmetic`, `Transfers`, `ControlBits`, `AddressMap` - what the core computes, in numbers, literal encodings,
bit positions and addresses; the functions that core and interpreter are both built from are held to these. `Refine` to
`RefineTrace`, `Progress`, `Ordinary`, `Reservation`, `Alignment`, `PipelineFacts`, `CoreRuns` - the refinement and its
consequences. `DataPort`, `Privilege`, `Atomics` - what holds in every run. `Witnesses`, `ResetRuns` - states and runs
in which the core departs from its specification. `Csr`, `CsrUnit`, `CsrAccess`, `CsrProof`, `Pmp`, `PmpProof`,
`PmpDecision`, `PmpLock`, `CounterRead` - CSRs, protection, counters. `AxiBridge`, `AxiPath`, `AxiCore`, `Fabric`,
`DataRam`, `ByteMemory` - the buses and memories. `Platform`, `AxiPlatform` - the core closed with either of the two
memory systems.

Several processes share one model where the registers only repeat each other: the decoded fields of ID/EX and EX/WB
are functions of the latched instruction word, `if_id_len` is the compressed flag, and the state `EX_WB`, which is never
entered, is absent. Configuration: A, C, M and U on, 8 PMP entries.

## What a run of the refinement assumes

`System.Inputs` builds the bus contract in: an answer comes at least one clock after its request is accepted, and a
request is accepted only when the bus is idle or, for instructions, while the outstanding answer is delivered. Grants
and answers otherwise come whenever the run says; everything outside RAM answers as the run says. Both memory systems
keep this contract (`Platform.PlatformIsSystem`, `AxiPlatform.PlatformIsSystem`). `Refine.Allowed` lists, clock by
clock, what is excluded, and why each part is needed is itself proved:

* `WellEncoded`: EX makes a memory access for an encoding that traps in decode (`DataPort.IllegalStillAccesses`,
  `ResetRuns.IllegalStoreIsReached`).
* `RanksAgree`, for what completes: EX and WB rank a pending interrupt differently against MRET, and in vectored mode
  against ECALL and EBREAK (`PipelineFacts.SteeringAgrees` says exactly when they still agree,
  `Witnesses.MretIsOutrankedInEx` is a state in which they do not).
* `NoCsrHazard`: EX reads CSRs while WB is still writing them (`DataPort.StaleReturn`,
  `Witnesses.MretReturnsToOldMepc`).
* no error on the read beat of an AMO: such an AMO disappears (`DataPort.LeavesThroughWb`, `ResetRuns.AmoIsLost`).
* `Covered`, for CSR operations that complete: not the PMP registers, whose change the buffered words do not see
  (`Privilege.WordsUnderPmpWrite` says exactly when that matters, `Witnesses.PmpWriteMissesBuffer` is a case), nor mip,
  whose lines may change between EX and WB (`Witnesses.MipReadIsLate`), nor triggers and HPM counters, which the model
  does not have.

`Ordinary.OrdinaryAt` gives these in terms of the interpreter's program. In are all CSR operations that leave alone what
EX reads, such as a swap with mscratch or a read of mepc, mcause or a counter. Out are CSR operations that change it;
MRET, and in vectored mode ECALL and EBREAK, while MIE is set; and what faults in fetch or decode with an encoding of
the load, store or atomic groups. Everything else is in, with whatever traps and interrupts it meets.

## Where the code and its documentation differ

The model follows the code. A failing SC keeps the reservation (`DataPort.FailedScKeepsReservation`,
`Witnesses.FailedScKeeps`), and a misaligned SC or AMO reports cause 4 (`RefineMemory.MisalignedMeaning`). A CSRR writes
back the half of a counter it reads, so it loses a count or gains 2^32 of them (`CounterRead.ReadingDisturbs`); the
benchmark's read loop is still right (`CounterRead.ReadCounter64`). A NAPOT region that ends at 2^32 matches nothing
(`PmpProof.NapotAtTop`), and the all-ones one misses its last byte, the only case in which a word is split
(`PmpProof.NapotIsPerWord`). CSRRW and CSRRWI of a read-only CSR with a zero source field are not reported, the only
breach of the rules on privilege and read-only registers that EX misses (`DataPath.ReadOnlyReported`,
`Witnesses.WriteOfCycleIsUnreported`), and an operation on a CSR number without a register reads zero and does nothing
(`CsrAccess.NoRegisterIsInert`). The timer interrupt ranks above the software interrupt, as the repository documents;
the Privileged specification has it the other way round (`CsrAccess.TimerOutranksSoftware`). Interrupts need MIE even in
user mode (`CsrAccess.HighestPriorityIsTaken`). An instruction that is interrupted writes its register but is not
counted as retired (`PipelineFacts.TrapsArePrecise`). The router forgets a request that overlaps an answer, which the
core never makes (`Fabric.RoutingSurvives`, `Fabric.FabricServesCore`).

## Model

| member | source | states |
|---|---|---|
| FetchProof.TakeWordParses | rtl/core/sisRvCore.sv:1328-1374 | a complete word gives the instruction that parsing the halfword at its pc gives, or starts a straddling one, whose low half it holds |
| FetchProof.TakeSecondParses | rtl/core/sisRvCore.sv:1376-1388 | the second word completes exactly the straddling instruction parsed at the pc |
| FetchProof.RunningStep | rtl/core/sisRvCore.sv:1272-1388 | a clock without redirect keeps the invariant of both buffers, the outstanding request and the held half, and the next pc moves only when ID takes an instruction |
| FetchProof.RedirectStep | rtl/core/sisRvCore.sv:1502-1519 | a redirect leaves nothing usable: buffers and IF/ID invalid, the outstanding answer marked; fetch restarts at the target under any later memory view |
| FetchProof.BusStep | rtl/core/sisRvCore.sv:964-974 | stage and bus stay in step in every clock, whatever memory answers: what is outstanding is what the stage waits for |
| FetchRun.StreamIsParsed | rtl/core/sisRvCore.sv:948-1034 | for every redirect schedule and latency, the instructions ID takes are those of a parser that follows the same redirects: nothing lost, repeated or overwritten |
| FetchRun.ParsedIsStream | rtl/core/sisRvCore.sv:948-1034 | between redirects that reference is the plain instruction stream of memory |
| FetchRun.StreamFromReset | rtl/core/sisRvCore.sv:1136-1158 | from reset to the first redirect ID gets the stream at the reset vector |
| FetchRun.AnswersAreCredited | rtl/core/sisRvCore.sv:964-1013 | at most one of demand and prefetch is outstanding, and each answer goes to the request that asked, at the address it is checked and stored for |
| FetchRun.Progress | rtl/core/sisRvCore.sv:959-974 | every answer lowers the number of answers the next instruction needs, and no other clock raises it |
| FetchRun.EmitsWithinFour | rtl/core/sisRvCore.sv:959-974 | without redirects an instruction reaches ID after at most four answers |
| FetchRun.NeverStuck | rtl/core/sisRvCore.sv:948-974 | with nothing outstanding the stage requests a word or serves a buffered one |
| FetchStage.IfStage.Assemble | rtl/core/sisRvCore.sv:1328-1374 | the assembly branches, assigned in order, are the function the parser results are about |
| FetchStage.IfStage.Straddle | rtl/core/sisRvCore.sv:1376-1388 | likewise for the second half |
| FetchStage.IfStage.Redirect | rtl/core/sisRvCore.sv:1502-1519 | likewise for the redirect block |
| FetchStage.IfStage.Clock | rtl/core/sisRvCore.sv:1272-1388 | all assignments of one clock, the last to a register winning, give the clock function |
| InstructionBus.RomMux.Clock | rtl/sisPlatformTop.sv:399-420 | the ROM and bad-address registers follow their clock function |
| InstructionBus.MuxObeys | rtl/sisPlatformTop.sv:399-420 | connected to the fetch stage the multiplexer keeps the slave contract and answers in the next clock |
| InstructionBus.AloneItMayOverlap | rtl/sisPlatformTop.sv:404-404 | alone it accepts over an untaken ROM answer, unless the core takes answers at once or the address is mapped |
| InstructionBus.FetchFromRom | rtl/periph/sisRom.sv:41-59 | over every redirect schedule the fetch stage behind the ROM hands ID what parsing the ROM gives |
| DecodeProof.ImmediatesAgree | rtl/core/sisDecode.sv:79-83 | the concatenations are the I, S, B and J immediates, sign-extended |
| DecodeProof.LegalIffDecodes | rtl/core/sisDecode.sv:106-181 | an encoding is legal exactly if the opcode tables give it an instruction |
| DecodeProof.ExpansionMeans | rtl/core/sisDecompress.sv:66-179 | each 16-bit word expands to an encoding of its RVC meaning, or has none and is reported illegal, both ways |
| MulDiv.ResultIsExact | rtl/core/sisRvCore.sv:332-385 | all eight operations give the mathematically exact result, for all operand pairs |
| MulDiv.WholeProducts | rtl/core/sisRvCore.sv:358-363 | MULH, MULHSU, MULHU with MUL are the two halves of the exact product of each signedness |
| MulDiv.SignedDivision | rtl/core/sisRvCore.sv:364-383 | a = b*q + r with truncation toward zero, a remainder smaller than b and of a's sign |
| MulDiv.UnsignedDivision | rtl/core/sisRvCore.sv:373-383 | a = b*q + r with 0 <= r < b |
| MulDiv.DivisionSpecialCases | rtl/core/sisRvCore.sv:364-383 | division by zero and overflow give the prescribed values |
| DataPath.ResultAgrees | rtl/core/sisRvCore.sv:390-428 | operand selection, ALU and multiplier compute the interpreter's value of every instruction that has one; what those values are in numbers the rows of Arithmetic say |
| Arithmetic.AddAndSubtract | rtl/core/sisAlu.sv:26-27 | ADD and SUB, by their encodings, add and subtract the operands' numbers modulo 2^32 |
| Arithmetic.SetLessThan | rtl/core/sisAlu.sv:29-30 | SLT compares the signed numbers, SLTU the unsigned ones |
| Arithmetic.Bitwise | rtl/core/sisAlu.sv:31-35 | XOR, OR and AND digit by digit |
| Arithmetic.Shifts | rtl/core/sisAlu.sv:28-33 | SLL multiplies by 2^n modulo 2^32; SRL and SRA give the q with q*2^n <= a < (q+1)*2^n, of unsigned and of signed numbers |
| Arithmetic.Immediates | rtl/core/sisRvCore.sv:390-428 | immediate instructions give what their register forms give with the I-immediate, the word's signed number over 2^20 |
| Arithmetic.Products | rtl/core/sisRvCore.sv:358-363 | from EX, by encoding: MUL with MULH, MULHSU and MULHU is the whole product of each signedness |
| Arithmetic.SignedDivision | rtl/core/sisRvCore.sv:364-383 | from EX, by encoding: DIV and REM truncate toward zero, with the values for a zero divisor and for overflow |
| Arithmetic.UnsignedDivision | rtl/core/sisRvCore.sv:373-383 | from EX, by encoding: DIVU and REMU, with the values for a zero divisor |
| Transfers.FieldBits | rtl/core/sisDecode.sv:66-71 | where the register numbers and the CSR number are |
| Transfers.CompressedGroup | rtl/core/sisDecompress.sv:15-16 | a 16-bit instruction's group is its bits 15 to 13 and 1 to 0 |
| Transfers.ImmediateBits | rtl/core/sisDecode.sv:79-83 | each bit of each immediate is the bit of the word the format diagrams name |
| Transfers.Branches | rtl/core/sisRvCore.sv:640-653 | the six branches, by encoding, compare signed or unsigned numbers |
| Transfers.Destinations | rtl/core/sisRvCore.sv:655-669 | the next pc as a number: pc plus offset, register plus immediate made even, or pc plus 2 or 4 |
| Transfers.OddTargets | rtl/core/sisRvCore.sv:655-669 | a legal transfer is reported exactly for an odd target |
| Transfers.UpperLinkAndAddress | rtl/core/sisRvCore.sv:390-428 | LUI, AUIPC, links and the addresses of all accesses as numbers |
| Transfers.Loads | rtl/core/sisRvCore.sv:816-850 | loads give the addressed bytes of the word as a signed or unsigned number |
| Transfers.AtomicNumbers | rtl/core/sisRvCore.sv:431-447 | AMOSWAP, AMOADD and the four minima and maxima, by encoding, in numbers |
| Transfers.AtomicDigits | rtl/core/sisRvCore.sv:431-447 | AMOXOR, AMOOR and AMOAND digit by digit |
| DataPath.SignedOrder | rtl/core/sisRvCore.sv:646-647 | the signed comparison orders by sign first, then as unsigned |
| DataPath.TakenAgrees | rtl/core/sisRvCore.sv:640-653 | a branch is taken exactly if its condition holds |
| DataPath.TargetAgrees | rtl/core/sisRvCore.sv:655-669 | the next pc is the jump, branch or sequential target of the instruction |
| DataPath.DeniedAgrees | rtl/core/sisRvCore.sv:614-638 | EX reports exactly the instructions the interpreter denies at the current privilege |
| DataPath.ReadOnlyReported | rtl/core/sisRvCore.sv:614-638 | EX reports the CSR operations the specification forbids, except exactly CSRRW and CSRRWI of a readable read-only register with a zero source field |
| DataPath.MisalignedAgrees | rtl/core/sisRvCore.sv:676-689 | the misalignment test is that of the access width |
| DataPath.LoadAgrees | rtl/core/sisRvCore.sv:816-850 | lane selection extracts the addressed bytes with the right extension |
| DataPath.StoreAgrees | rtl/core/sisRvCore.sv:790-813 | store data and strobes insert exactly the addressed bytes |
| DataPath.AmoAgrees | rtl/core/sisRvCore.sv:431-447 | the new memory value is the AMO function of old value and operand |
| RefineBypass.ForwardIsWritten | rtl/core/sisRvCore.sv:885-891 | what EX forwards is what it will write, if it leaves without redirect |
| RefineBypass.OperandReady | rtl/core/sisRvCore.sv:893-934 | in any state both operands ID hands over are the register values after WB and the instruction leaving EX have written, through any bypass and for any producer |
| RefineBypass.OperandsAreRegisters | rtl/core/sisRvCore.sv:864-934 | so in any state they are the register file of two clocks later, when every older instruction has written |
| RefineBase.FetchObeys | rtl/core/sisRvCore.sv:531-562 | fetch answers used by the pipeline are checked at their own address and their consumer's privilege |
| RefineBase.SettledKeeps | rtl/core/sisCsr.sv:385-441 | unless WB traps or returns, privilege and PMP registers are already settled |
| RefinePlain.SimpleCommits | rtl/core/sisRvCore.sv:762-788 | arithmetic, jumps, branches, fences and waits commit as the interpreter says, with a pending interrupt or not |
| RefinePlain.BreakCommits | rtl/core/sisRvCore.sv:703-735 | a trigger hit traps before any effect |
| RefinePlain.DeniedCommits | rtl/core/sisRvCore.sv:1090-1095 | a denied instruction traps as illegal with its own encoding |
| RefineCommit.FetchFaultCommits | rtl/core/sisRvCore.sv:1065-1070 | a fetch fault traps with cause 1 at its own pc |
| RefineCommit.IllegalCommits | rtl/core/sisRvCore.sv:1090-1095 | an illegal encoding traps with cause 2 and its raw bits |
| RefineSystem.CallCommits | rtl/core/sisRvCore.sv:1098-1107 | ECALL and EBREAK trap with the cause of the current privilege |
| RefineSystem.MretCommits | rtl/core/sisRvCore.sv:1108-1109 | MRET returns to mepc, if no interrupt outranks it |
| RefineSystem.CsrCommits | rtl/core/sisRvCore.sv:1096-1097 | a CSR instruction reads the settled value and issues its operation |
| RefineMemory.MisalignedCommits | rtl/core/sisRvCore.sv:1078-1083 | a misaligned access traps with its address and never uses the bus |
| RefineMemory.PmpFaultCommits | rtl/core/sisRvCore.sv:701-702 | a denied access traps with its address and never uses the bus |
| RefineMemory.FailedScCommits | rtl/core/sisRvCore.sv:691-700 | an SC without its reservation returns one and makes no access |
| RefineBus.OneBeatCommits | rtl/core/sisRvCore.sv:1406-1433 | loads, stores, LR and SC commit with the bus answer, or trap on its error |
| RefineBus.AmoCommits | rtl/core/sisRvCore.sv:1434-1443 | an AMO returns the old word and leaves the new one, or traps on a write error |
| RefineAccess.FirstRequest | rtl/core/sisRvCore.sv:985-1004 | the first request is at the architectural address and changes RAM as the instruction does |
| RefineAccess.SecondRequest | rtl/core/sisRvCore.sv:991-996 | the second beat of an AMO stores its new value at the same address |
| RefineAccess.WaitingStep | rtl/core/sisRvCore.sv:1390-1450 | every wait of an access keeps RAM and the outstanding answer as the interpreter's access needs |
| RefineStep.LeavingCommits | rtl/core/sisRvCore.sv:1453-1498 | whatever leaves EX has exactly the interpreter's next pc, register write, command, memory and reservation |
| RefineTheorem.ClockRefines | rtl/core/sisRvCore.sv:1136-1585 | each clock is invisible or exactly one step of the interpreter |
| RefineTheorem.PipelineRefinesIsa | rtl/core/sisRvCore.sv:1136-1611 | over every allowed run the state and the retirement log are the interpreter's |
| RefineTrace.BusCarriesIsaAccesses | rtl/core/sisRvCore.sv:976-1012 | the data bus carries the interpreter's accesses once each, in order; nothing between the beats of an AMO |
| Progress.StepsFall | rtl/core/sisRvCore.sv:893-895 | until something leaves EX no clock loses ground, and one in which both buses cooperate gains: no hazard, wait or redirect can lock the pipeline |
| Progress.InstructionsKeepCompleting | rtl/core/sisRvCore.sv:1130-1133 | over every allowed run one instruction completes at least every twenty cooperative clocks |
| Ordinary.OrdinaryProgramsRefine | rtl/core/sisRvCore.sv:1136-1585 | a program whose instructions are all ordinary refines in every run without an AMO read error: faults, interrupts, denied operations, and CSR operations that leave alone what EX reads, included |
| PipelineFacts.ResetRefines | rtl/core/sisRvCore.sv:1137-1239 | reset is the interpreter's initial state |
| PipelineFacts.FromReset | rtl/core/sisRvCore.sv:1593-1613 | from reset to any drained state the visible state and the log are the interpreter's |
| Privilege.TrapEmptiesPipe | rtl/core/sisRvCore.sv:782-788 | from any state, a trap or return that enters WB leaves ID and EX empty and fetch with nothing it can use |
| Privilege.PrivilegeNeedsEmptyPipe | rtl/core/sisCsr.sv:385-401 | over every run from reset, when WB traps or returns ID and EX are empty, both buffers invalid and outstanding fetches marked, and no other clock changes the privilege |
| Privilege.ExRunsAtPrivilege | rtl/core/sisRvCore.sv:531-562 | so in every reachable state EX runs at the privilege in force |
| Privilege.ServedStep | rtl/core/sisRvCore.sv:1287-1322 | a clock that redirects, or leaves the PMP registers alone, keeps all that fetch holds checked at the registers and privilege in force |
| Privilege.ServedWordsAreChecked | rtl/core/sisRvCore.sv:531-562 | in every reachable state with the PMP registers unchanged since the last redirect, each buffered word was execute-checked at its own address, and ID hands EX what parsing them gives, checked at the privilege EX runs it at |
| Privilege.WordsUnderPmpWrite | rtl/core/sisRvCore.sv:1315-1374 | under a PMP write without redirect a buffered word stays rightly checked exactly if memory answers it with an error or the old and new registers agree on it |
| PipelineFacts.TrapsArePrecise | rtl/core/sisRvCore.sv:1060-1122 | a fault leaves no write and its own pc in mepc; an interrupt completes its instruction and saves its successor |
| PipelineFacts.TrapsAreSteered | rtl/core/sisRvCore.sv:762-788 | whenever WB will trap or return, EX steered fetch to where the interpreter goes |
| PipelineFacts.SteeringAgrees | rtl/core/sisRvCore.sv:762-788 | in any state EX redirects for every trap of WB, and to the same place exactly under RanksAgree or by coincidence |
| PipelineFacts.TrapsIffSteered | rtl/core/sisRvCore.sv:762-788 | in any state WB will trap exactly if the instruction faults, calls, breaks, or is interrupted and no MRET; under RanksAgree, exactly if EX steers to a trap vector |
| PipelineFacts.TrapsArePreciseAnywhere | rtl/core/sisRvCore.sv:1060-1122 | in any state a fault, call or break writes no register and saves its own pc; an interrupted instruction writes its result and saves its successor |
| PipelineFacts.SuppressedNeverRequests | rtl/core/sisRvCore.sv:698-735 | in any state an access stopped by a trigger, its alignment or the PMP, and an SC without reservation, drive no request |
| PipelineFacts.InstretCountsRetired | rtl/core/sisCsr.sv:378-379 | over every run in which minstret is neither inhibited nor addressed by a CSR operation it counts exactly the instructions logged as retired |
| PipelineFacts.CsrAccessRetires | rtl/core/sisRvCore.sv:1060-1064 | a CSR operation retires in the clock that performs it, so minstret ticks while it is read |
| PipelineFacts.CsrUnitOfRun | rtl/core/sisCsr.sv:344-441 | over every run CSRs and counters are those of the CSR unit fed with the commands of WB |
| Alignment.OutcomeIsEven | rtl/core/sisRvCore.sv:671-674 | in the interpreter, from an even pc every instruction goes to an even pc and saves an even mepc |
| Alignment.NoMisalignedFetch | rtl/core/sisRvCore.sv:671-674 | so over every run of it pcs stay even and no instruction raises the misaligned-fetch exception |
| CoreRuns.CoreCommitAgrees | rtl/core/sisRvCore.sv:1453-1498 | whatever leaves EX: fetch target, write and command of WB, RAM, reservation registers and retirement are the interpreter's outcome |
| CoreRuns.CoreTrapsArePrecise | rtl/core/sisRvCore.sv:1060-1122 | from reset on, a fault leaves no register write of WB, no change of RAM and no reservation, with its own pc in mepc; an interrupt completes its instruction and saves the successor |
| CoreRuns.CoreFetchesAreAligned | rtl/core/sisRvCore.sv:671-674 | from an even reset vector the pcs in EX and fetch, every pc WB logs or saves and mepc are even, and WB never raises the misaligned-fetch exception |
| DataPort.RequestHeld | rtl/core/sisRvCore.sv:737-745 | a request not accepted is driven again, unchanged |
| DataPort.PortStep | rtl/core/sisRvCore.sv:1008-1012 | no request is made while an answer is due |
| DataPort.PortRun | rtl/core/sisRvCore.sv:1008-1012 | in every run each accepted request is answered once, one at a time |
| DataPort.LeavesThroughWb | rtl/core/sisRvCore.sv:1410-1433 | an instruction leaves EX only through WB, except exactly an AMO with an error on its read |
| DataPort.IllegalStillAccesses | rtl/core/sisRvCore.sv:698-735 | an encoding that traps in decode requests exactly if it looks like an aligned, permitted access |
| Witnesses.IllegalStoreRequests | rtl/core/sisDecode.sv:122-125 | a core with the illegal store encoding of funct3 6 in EX drives a write request |
| ResetRuns.IllegalStoreIsReached | rtl/core/sisRvCore.sv:698-735 | and three clocks after reset a program that begins with it has got there |
| ResetRuns.AmoIsLost | rtl/core/sisRvCore.sv:1427-1430 | five clocks after reset an AMO whose read was answered with an error is gone, fetch is behind it and WB has seen nothing |
| DataPort.StaleReturn | rtl/core/sisRvCore.sv:777-779 | MRET goes to the mepc it will find in the CSR unit exactly if the instruction in WB is not about to change mepc, by trap or by CSR operation |
| Witnesses.MretReturnsToOldMepc | rtl/core/sisRvCore.sv:777-779 | with a write of 0x100 to mepc in WB, MRET steers to the old mepc |
| Witnesses.PmpWriteMissesBuffer | rtl/core/sisRvCore.sv:1315-1374 | a word buffered before a PMP write that denies it is still handed to ID as executable |
| Witnesses.MipFollowsLines | rtl/core/sisCsr.sv:128-128 | two reads of mip agree exactly if the lines do |
| Witnesses.MipReadIsLate | rtl/core/sisRvCore.sv:1096-1097 | CSRRS x1, mip, x0 writes the lines of WB's clock: what the interpreter writes exactly if they are those of EX's clock |
| Witnesses.MretIsOutrankedInEx | rtl/core/sisRvCore.sv:762-780 | with a software interrupt pending, MRET steers to the trap vector while WB returns |
| Witnesses.WriteOfCycleIsUnreported | rtl/core/sisRvCore.sv:614-618 | CSRRW x1, cycle, x0 is not reported in machine mode, though it must be |
| DataPort.FailedScKeepsReservation | rtl/core/sisRvCore.sv:1410-1430 | a failing SC drops the reservation only with a redirect |
| Witnesses.FailedScKeeps | rtl/core/sisRvCore.sv:1410-1430 | with 0x10 reserved an SC to 0x20 returns one and leaves 0x10 reserved |
| Atomics.ReservationOfRun | rtl/core/sisRvCore.sv:1410-1430 | over every run the reservation registers hold an address exactly after an LR answered there with no redirect, LR or SC since |
| Atomics.ScRequest | rtl/core/sisRvCore.sv:985-1004 | the request of an SC stores its operand at its address |
| Atomics.ScReturnsZero | rtl/core/sisRvCore.sv:691-697 | over every run from reset an SC without exception returns zero exactly if it was on the bus, and exactly after such an LR to its address |
| Atomics.AmoIsTwoBeats | rtl/core/sisRvCore.sv:1434-1443 | over every run without answer errors, the next request accepted after an AMO's read is its write, of the AMO function of the word read |
| Reservation.StepReserves | rtl/core/sisRvCore.sv:1410-1430 | in the interpreter, a step leaves an address reserved exactly if it is an LR there, or nothing disturbs an earlier one |
| Reservation.ReservationHistory | rtl/core/sisRvCore.sv:1410-1430 | over every run of it the reservation is that of the last LR with nothing disturbing since |
| Reservation.ScWritesIffZero | rtl/core/sisRvCore.sv:691-697 | SC returns zero exactly if it wrote, and then it stored its operand |
| Reservation.ScSucceedsAfterLr | rtl/core/sisRvCore.sv:691-697 | over every run of it an SC succeeds exactly after such an LR to its address |
| CoreRuns.CoreReservation | rtl/core/sisRvCore.sv:1410-1430 | from reset on, the reservation registers hold an address exactly after such an LR to it |
| CoreRuns.CoreScSucceedsAfterLr | rtl/core/sisRvCore.sv:691-697 | and the register an SC writes in WB is zero exactly then |
| CoreRuns.ScTouches | rtl/core/sisRvCore.sv:691-700 | an SC that completes puts one write of its operand on the bus if it returns zero, and nothing otherwise |
| CoreRegs.RegisterFile.Read | rtl/core/sisRegFile.sv:32-35 | x0 reads as zero, other registers as last written |
| CoreRegs.RegisterFile.Write | rtl/core/sisRegFile.sv:37-43 | a write changes its register only, and never x0 |
| CoreRegs.SisRvCore.ClockEx | rtl/core/sisRvCore.sv:1390-1451 | the EX state machine's assignments give the clock function |
| CoreRegs.SisRvCore.ClockAtomics | rtl/core/sisRvCore.sv:1410-1430 | reservation and AMO registers likewise, a redirect winning |
| CoreRegs.SisRvCore.Clock | rtl/core/sisRvCore.sv:1242-1585 | the whole core's clocked assignments give the clock function of the refinement |
| CsrUnit.CsrRegs.WritePmpcfg | rtl/core/sisCsr.sv:421-427 | the loop sets the unlocked entries of the register and no other |
| CsrUnit.CsrRegs.WritePmpaddr | rtl/core/sisCsr.sv:428-429 | an address write obeys its own and the next entry's lock |
| CsrUnit.CsrRegs.Clock | rtl/core/sisCsr.sv:344-441 | the CSR process gives the state and counters of its clock function |
| CsrAccess.WrittenIsRead | rtl/core/sisCsr.sv:402-416 | a written CSR reads back its legal value |
| CsrAccess.OtherReadsKept | rtl/core/sisCsr.sv:402-416 | and no other read changes |
| CsrAccess.PmpNumbers | rtl/core/sisCsr.sv:198-221 | pmpaddr i is CSR 0x3B0 + i, and entry i is configured by CSR 0x3A0 + i/4 |
| CsrAccess.PmpAddressReadsBack | rtl/core/sisCsr.sv:428-429 | a pmpaddr register reads back what was written, or its old value under a lock |
| CsrAccess.PmpConfigReadsBack | rtl/core/sisCsr.sv:421-427 | each byte of a pmpcfg register reads back in legal form, or as before if its entry is locked |
| CsrAccess.MatchIsReadable | rtl/core/sisPmp.sv:47-71 | the addresses an entry matches are told by what its registers, and the address below, read as |
| CsrAccess.OnlyReachingWritesMove | rtl/core/sisCsr.sv:166-178 | a CSR write can move an entry's matches only through its own unlocked configuration or address, or for TOR the unblocked address below |
| CsrAccess.ProgrammedEntryMatches | rtl/core/sisCsr.sv:421-429 | after its address and configuration are written, an unblocked entry matches exactly what they say |
| CsrAccess.LegalConfig | rtl/core/sisCsr.sv:130-136 | a configuration byte has its reserved bits clear, and legalizing is idempotent |
| CsrAccess.TrapRecords | rtl/core/sisCsr.sv:385-390 | a trap saves pc, cause and value, enters machine mode, and changes nothing else |
| CsrAccess.HighestPriorityIsTaken | rtl/core/sisCsr.sv:458-476 | the interrupt taken is the enabled, raised one of highest priority, and none is missed |
| CsrAccess.TimerOutranksSoftware | rtl/core/sisCsr.sv:458-476 | it differs from the order external, software, timer exactly if timer and software are ready and external is not |
| CsrAccess.NoRegisterIsInert | rtl/core/sisCsr.sv:325-339 | a CSR operation on a number without a register reads zero and changes nothing |
| ControlBits.PendingByBits | rtl/core/sisCsr.sv:458-476 | an interrupt is pending exactly with bit 3 of mstatus and bit 11, 7 or 3 of mie set and that line raised; its cause is 2^31 plus 11, 7 or 3, in that order |
| ControlBits.TrapTargets | rtl/core/sisRvCore.sv:758-769 | EX steers an exception to mtvec without its low bits, and an interrupt there or, with bit 0 of mtvec set, 44, 28 or 12 above it |
| ControlBits.DataLevel | rtl/core/sisRvCore.sv:519-530 | loads, stores and atomics are checked at the level in force, or in machine mode with bit 17 of mstatus set at the level in bits 12 and 11 |
| ControlBits.FetchLevel | rtl/core/sisRvCore.sv:531-562 | fetched words are checked for execution alone at the level in force |
| ControlBits.RegisterOperations | rtl/core/sisCsr.sv:267-275 | what CSRRW, CSRRS, CSRRC and their immediate forms, by encoding, leave in each register, digit by digit |
| ControlBits.WriteSetAndClear | rtl/core/sisCsr.sv:267-275 | over the unit: a write reads back; a set holds both values and no more; a clear holds none of the source and the rest of the old value |
| ControlBits.StatusOperations | rtl/core/sisCsr.sv:138-158 | the same for mstatus: bits 3, 7, 17 and 21 are taken, MPP becomes level 3 or else 0, the rest stays |
| ControlBits.TrapByBits | rtl/core/sisCsr.sv:385-390 | a trap by register numbers and bit positions, and that no other bit of mstatus changes |
| ControlBits.ReturnByBits | rtl/core/sisCsr.sv:391-401 | likewise MRET |
| ControlBits.LinesRead | rtl/core/sisCsr.sv:128-128 | mip shows the lines at bits 11, 7 and 3 |
| ControlBits.NumbersOfRegisters | rtl/core/sisCsr.sv:296-306 | which register each CSR number reads |
| ControlBits.NumbersOfCounters | rtl/core/sisCsr.sv:313-320 | the counter numbers read the two halves of the counters |
| ControlBits.CountingByBits | rtl/core/sisCsr.sv:376-379 | bits 0 and 2 of mcountinhibit stop cycles and retirements |
| ControlBits.DenialsByBits | rtl/core/sisRvCore.sv:614-638 | the instructions EX rejects at a level, by encodings and bit positions |
| ControlBits.TriggersByBits | rtl/core/sisRvCore.sv:703-735 | a trigger is hit exactly by the bits of tdata1 and equality with tdata2 |
| ControlBits.PmpAddressWrites | rtl/core/sisCsr.sv:166-179 | a pmpaddr write is dropped exactly under its own lock or a locked TOR entry above, told from the bytes |
| ControlBits.PmpConfigWrites | rtl/core/sisCsr.sv:421-427 | each byte of a pmpcfg write: locked by its bit 7, else all bits but 5 and 6 are taken |
| CsrProof.ExecuteKeepsStatus | rtl/core/sisCsr.sv:138-158 | every command keeps mstatus inside its mask and both privileges in {U, M} |
| CsrProof.StatusOverRuns | rtl/core/sisCsr.sv:344-441 | so does every run of commands |
| CsrProof.StatusFromReset | rtl/core/sisCsr.sv:344-441 | hence every state after reset has it |
| CsrProof.StackFrame | rtl/core/sisCsr.sv:385-401 | traps change only MIE, MPIE and MPP, returns also MPRV |
| CsrProof.HandlerStaysMachine | rtl/core/sisCsr.sv:385-401 | a handler runs in machine mode throughout, however traps nest in it, if each nested handler leaves MPP and MPIE as found |
| CsrProof.TrapRoundTrip | rtl/core/sisCsr.sv:385-401 | a trap, any such handler that itself leaves MPP and MPIE as found at its end, and MRET restore the interrupted privilege and MIE and clear MPRV below M |
| CsrProof.RestoringLeavesStack | rtl/core/sisCsr.sv:138-158 | a handler that saves mstatus and writes it back before its return does, whatever happens in between |
| PmpLock.LockedIsImmutable | rtl/core/sisCsr.sv:160-178 | over every run a locked entry keeps its configuration, address and the set of addresses it matches |
| PmpLock.LockedDecisionIsFixed | rtl/core/sisPmp.sv:85-113 | with all entries up to it locked, the decision on that set is constant |
| Pmp.NapotSizeBytes | rtl/core/sisPmp.sv:24-36 | the trailing-ones loop computes the region size |
| Pmp.Check | rtl/core/sisPmp.sv:85-113 | the selection loops compute the decision of the lowest matching entry |
| PmpProof.NapotExact | rtl/core/sisPmp.sv:38-71 | the range test is the specification's mask test for all addresses exactly if the region ends below 2^32 |
| PmpProof.NapotAtTop | rtl/core/sisPmp.sv:38-71 | a region that ends at 2^32 matches nothing, though the mask test does |
| PmpDecision.DecisionIsTheSpecification | rtl/core/sisPmp.sv:47-113 | the decision is the lowest-match rule with M-bypass, lock and default of the specification, stated on address ranges, levels and configuration bytes as numbers |
| PmpDecision.FirstMatchDecides | rtl/core/sisPmp.sv:95-113 | the first matching entry grants reads, writes and fetches exactly by bits 0, 1 and 2 of its byte, each kind asked for, to user mode and, from 0x80 on, to machine mode |
| PmpDecision.NoMatchDecides | rtl/core/sisPmp.sv:107-110 | without a match only level 3 passes |
| PmpProof.DecisionIsPerWord | rtl/core/sisPmp.sv:47-113 | for any registers, none of them an all-ones NAPOT, the decision is the same for all bytes of a word |
| PmpProof.NapotIsPerWord | rtl/core/sisPmp.sv:27-71 | a NAPOT entry matches whole words exactly if its register is not all ones |
| AxiBridge.AxiMaster.Clock | rtl/bus/sisAxiLiteM.sv:78-152 | the bridge's process gives its clock function |
| AxiBridge.ValidIsStable | rtl/bus/sisAxiLiteM.sv:154-179 | VALID, address, data and strobe hold until READY, a response until taken |
| AxiBridge.RankFalls | rtl/bus/sisAxiLiteM.sv:89-150 | each handshake lowers the rank by one and nothing else moves it |
| AxiBridge.ExactlyOnce | rtl/bus/sisAxiLiteM.sv:78-179 | whatever the slave does, each request gives one AR, or one AW and one W, in order, and one response |
| AxiPath.ArbiterRegs.Clock | rtl/sisPlatformTop.sv:585-598 | the arbiter's process gives its clock function |
| AxiPath.AxiSlave.ClockRead | tb/models/sisAxiLiteSlave.sv:340-387 | the read process gives its clock function |
| AxiPath.AxiSlave.ClockWrite | tb/models/sisAxiLiteSlave.sv:469-598 | the write process, with RAM changed in place, gives its clock function |
| AxiPath.StepRefines | rtl/sisPlatformTop.sv:576-608 | each clock is invisible, accepts one request, or answers it on the port that asked |
| AxiPath.PathIsAtomicMemory | rtl/sisPlatformTop.sv:576-608 | under every stall schedule and AW/W order the path is an atomic memory |
| AxiPath.AnswerComes | tb/models/sisAxiLiteSlave.sv:340-387 | without further stalls an answer comes within nineteen clocks |
| AxiCore.PathObeys | rtl/sisPlatformTop.sv:582-608 | in a clock, on the instruction port the path answers only the outstanding fetch, and accepts only when none is |
| AxiCore.RomFetch | tb/models/sisAxiLiteSlave.sv:296-300 | a fetch from ROM gets its word without error, whatever else is going on |
| AxiCore.PathServesEx | rtl/sisPlatformTop.sv:582-608 | in a clock, EX gets only an answer it is owed, and requests only when owed none |
| AxiPlatform.StepRealizes | rtl/sisPlatformTop.sv:576-608 | a clock of core and path that fetches no instruction from RAM or a device is a clock of the closed system |
| AxiPlatform.PlatformIsSystem | rtl/sisPlatformTop.sv:576-608 | over every such run, under every stall schedule, core and path are the closed system, and WB logs the same |
| AxiPlatform.PlatformRefinesIsa | rtl/sisPlatformTop.sv:161-200 | so from reset WB does what the interpreter does, and drained, registers, CSRs, reservation and the slave's RAM are the interpreter's |
| Fabric.MemFabric.Clock | rtl/bus/sisMemFabric.sv:98-115 | the router's process gives its clock function |
| Fabric.RegionsAreDisjoint | rtl/bus/sisMemFabric.sv:88-93 | no address is decoded to two slaves |
| AddressMap.RegionNumbers | rtl/bus/sisMemFabric.sv:88-93 | the address range of each slave of the data fabric |
| AddressMap.SlaveRegionNumbers | tb/models/sisAxiLiteSlave.sv:235-253 | the ranges the AXI slave maps |
| AddressMap.RamWordNumber | rtl/periph/sisRam.sv:55-75 | the RAM word an address selects is a quarter of its distance from 0x8000_0000 |
| AddressMap.WordAddressNumber | rtl/core/sisRvCore.sv:531-540 | the word fetched for a pc is that of its four-byte block |
| AddressMap.ParsedNumbers | rtl/core/sisRvCore.sv:1328-1388 | what the reference parser reads, in numbers: one halfword, or two, told by the low two bits |
| Fabric.StepRoutes | rtl/bus/sisMemFabric.sv:98-158 | for a master that waits, every answer comes from the slave its request selected, once |
| Fabric.RoutingSurvives | rtl/bus/sisMemFabric.sv:98-158 | for any master the routing survives a clock exactly if no request is taken over an owed answer, or that answer is not given and its slave takes the request |
| Fabric.FabricServesCore | rtl/bus/sisMemFabric.sv:98-158 | EX is such a master in every clock, for any slave latency |
| DataRam.RamArray.Clock | rtl/periph/sisRam.sv:55-75 | the RAM process, written in place, gives its clock function |
| DataRam.RamBacksSystem | rtl/periph/sisRam.sv:55-79 | a request and its answer leave it the memory the closed system assumes |
| Platform.StepRealizes | rtl/sisPlatformTop.sv:325-476 | each clock of core, ROM, router and RAM is a clock of the closed system |
| Platform.PlatformIsSystem | rtl/sisPlatformTop.sv:325-476 | over every run, whatever the other slaves do, they are the closed system with the ROM as instruction memory, and WB logs the same |
| Platform.PlatformRefinesIsa | rtl/sisPlatformTop.sv:161-200 | so from reset WB does what the interpreter of the ROM's program does, and drained, registers, RAM, CSRs and reservation are the interpreter's |
| ByteMemory.LoadIsBytes | rtl/core/sisRvCore.sv:816-850 | the lanes an aligned load selects give the addressed bytes of a little-endian byte memory, extended |
| ByteMemory.StoreIsBytes | rtl/core/sisRvCore.sv:790-813 | the data and strobes of an aligned store change exactly the addressed bytes |
| ByteMemory.WordsAreBytes | rtl/periph/sisRam.sv:55-79 | so for every sequence of aligned accesses the RAM unit, behind lanes and strobes, is that byte memory |
| CounterRead.ReadWritesBack | rtl/core/sisCsr.sv:376-416 | a CSRR of one half of mcycle or minstret puts that half back while the other takes the carry of a tick |
| CounterRead.ReadingDisturbs | rtl/core/sisCsr.sv:376-416 | so a low-half read spoils the count exactly on a tick, a high-half read exactly on a carry |
| Digits.NextNumber | rtl/core/sisCsr.sv:376-379 | adding one to a 32-bit word adds one to its number, modulo 2^32 |
| CounterRead.ClockInNumbers | rtl/core/sisCsr.sv:376-416 | in numbers, a clock of the 64-bit registers follows the rules of the loop: tick, low-half read, high-half read |
| CounterRead.WaitIsLater | rtl/core/sisCsr.sv:376-379 | over any stretch of commands that leaves it alone a running counter advances by its ticks |
| CounterRead.PassInTheRegisters | sw/bench/common/sisrv_bench.c:47-51 | with any such stretches between them, the three CSRR of a pass read from the registers what a pass over numbers reads |
| CounterRead.ReadOnce | sw/bench/common/sisrv_bench.c:47-51 | the loop body makes the three reads in order, those of PassInTheRegisters |
| CounterRead.RetrySucceeds | sw/bench/common/sisrv_bench.c:43-53 | after a torn pass the next one cannot be torn |
| CounterRead.LoopInTheRegisters | sw/bench/common/sisrv_bench.c:43-65 | over the registers, with any clocks between the reads: the first pass agrees and gives the counter at its low-half read, or the second does |
| CounterRead.ReadCounter64 | sw/bench/common/sisrv_bench.c:43-65 | the loop, over mcycle or minstret, returns the counter at its low-half read, in at most two passes, also over the top of the counter |

## Left out

- Debug: halt, resume, single step, the debug module and JTAG; a step can cancel an access already on the bus.
- PLIC, CLINT, GPIO, UART and tohost registers; they answer as the run says.
- HPM counters and events, and the trigger CSRs (triggers are constant in a run).
- CSR writes to PMP registers inside a refinement run, and reads of mip; what they do is proved of the CSR unit, the matcher and fetch alone.
- The LFSR that decides stalls; stalls are inputs, so every schedule is covered.
- CounterRead.ReadCounter64: for passes under 2^31 ticks.
- PmpDecision.DecisionIsTheSpecification: for pmpaddr registers below 2^30 and NAPOT regions that end below 2^32; NapotExact and NapotAtTop cover the rest of NAPOT.
- AxiPlatform.PlatformIsSystem: instruction memory is constant, so runs that fetch from RAM or a device are not covered.
- Fabric.StepRoutes: a write to the ROM is never answered by `sisRom`, so a run in which the core stores to ROM waits for ever.
- CoreRegs.SisRvCore.Clock: EX and WB registers are records updated field by field, not one field per register.
- Configurations with A, C, M or U off, or fewer PMP entries; synthesis, simulation harnesses and firmware.
