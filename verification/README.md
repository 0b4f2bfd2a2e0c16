# A verified model of sim68xx

sim68xx simulates processors of the 6800 family, their on-chip peripherals and a few boards. This
project models its 6303 processor core with the shadow call stack, the 6303, 6811 and 6805 timers,
the SCI and SPI receive queues, the NC-CPU shift-register output, the S19 loader and the bit-level
I2C decoder with the X9241 potentiometers, and proves what they do over whole runs.

Code that changes state in place is modelled by classes and methods with the source's fields and
branches. Each method is proved against a specification on values, and the theorems about runs
are lemmas on that specification.

| file | what it holds |
|---|---|
| `Words.dfy`, `Bits.dfy` | bytes, words, the bit operators of C, and bytes as bit streams |
| `Registers.dfy` | the flag formulas of `alu.c` proved against arithmetic |
| `CallStack.dfy` | the shadow call stack and its definition from the stack-pointer history |
| `RegisterBlock.dfy` | the 6303 register block: timers, SCI, status handshakes |
| `Optab.dfy` | the 6303 opcode table |
| `Machine.dfy` | the 6303 as a value: memory, stack, operands, instructions, one step |
| `Manual.dfy`, `Decode.dfy`, `Meaning.dfy` | a reference for results and flags in numbers and bits, the opcode table as a law over the opcode's bits, and the proof that operations meet the reference |
| `Instructions.dfy`, `Branches.dfy`, `Transfers.dfy` | what one step does for every opcode and interrupt, and what a branch asks about the instruction before it |
| `RegisterAccess.dfy` | what each register of the block does when read, written and clocked, bit by bit |
| `Cpu.dfy` | the processor as an object, each method proved to do what `Machine.dfy` says |
| `Simulation.dfy` | one relation through every instruction, used for transparency and for the call stack |
| `Subroutines.dfy`, `Interrupts.dfy`, `Disassembly.dfy`, `Compare.dfy` | theorems about runs of the machine |
| `Arithmetic.dfy`, `Loops.dfy`, `InterruptedLoops.dfy` | multi-byte arithmetic, as byte chains, as programs the machine executes, and under interrupts |
| `Timer6303.dfy`, `Timer6811.dfy`, `Timer6805.dfy`, `Handshake6805.dfy` | the three timers over every split of the cycle stream, and their status handshakes |
| `MachineTimer.dfy` | the 6303 timers over runs of the machine |
| `Sci.dfy`, `Spi.dfy`, `NcCpu.dfy`, `S19.dfy` | serial queues, shift-register output, the loader |
| `I2c.dfy`, `I2cMaster.dfy`, `I2cAck.dfy` | the I2C decoder with the potentiometers, masters that talk to them, and all that they clock in |

Where the source departs from its own comments or from the chip, the model follows the code:

- `tcsr2_putb` stores into TCSR1, and timer 2 is enabled by bit 4 of TCONR, because the source tests
  the enable bit in a word read that starts at TCSR3.
- An output compare of the 6303 that falls after the counter's wrap within one step is missed;
  `Timer6303.MissedOnWrap` says exactly when.
- `daa` leaves a byte 0x60 short when the tens digits sum to 15 and the units produce a carry;
  `Arithmetic.DaaByte` says exactly when, `Arithmetic.DaaCounterexample` is an instance.
- `toc_putb` latches the register word as it was before the low byte arrived, and relies on a 32-bit
  `long`; `Countdown.LatchTarget` and `Countdown.LatchedDistance` give the exact conditions.
- A 6811 channel with a count of 0, as at power-up or after its register was set to the counter's own
  value, fires in the next step without reaching its target; `Countdown.FiresWhenReached` says so.
- The write table installs `toc_putb` for the first output compare of the 6811 only; the model's
  `TocPutB` covers the code's five channels, which all count down whether latched or not.
- The shadow call stack stops agreeing with its definition at the first call made with 256 calls
  live (`CallHistory.OverflowDisagrees`), and a call made with SP at 0 or 1 empties it on return
  (`Subroutines.CallReturns`).
- The S19 loader stores a record's data before it compares the checksum, so a rejected record
  has still changed memory.
- A start or stop of the I2C bus is preceded by a rising clock edge; in output mode the decoder counts
  that edge as one more data bit, as the source does (`Master.Seen`).

The state carries two history variables that no other field depends on, in any run
(`Simulation.RunCore`): `hist` lists stack-pointer changes and calls, and `mon` watches reads and
writes. Interrupt transparency is stated with two hypotheses. One is about the program alone:
executed without interrupts, each of its instructions reads only bytes that handlers leave to
it, or that it wrote itself, and no device register (`Interrupts.Undisturbed`). The other is
about the handlers: each returns with SP and frame as it found them and leaves those bytes alone
(`Interrupts.Interleaved`). Which bytes these are is a parameter: a set, and everything above SP
for a program that keeps its data on the stack.

## Model

| member | source | states |
|---|---|---|
| Registers.Registers.AddByte | src/arch/m68xx/alu.c:27-38 | the carry, overflow and half-carry formulas give the unsigned carry, signed overflow and low-digit carry of the true sum |
| Registers.Registers.AddWord | src/arch/m68xx/alu.c:44-54 | the same for words, H untouched |
| Registers.Registers.SubByte | src/arch/m68xx/alu.c:258-270 | from a difference taken in 32-bit unsigned arithmetic: C is the borrow, V the signed overflow |
| Registers.Registers.SubWord | src/arch/m68xx/alu.c:276-287 | the same for words |
| Registers.Registers.CmpWord | src/arch/m68xx/alu.c:292-302 | every flag of the word difference except C, which is kept |
| Registers.Registers.BitTest | src/arch/m68xx/alu.c:72-87 | N and Z of the value, V cleared, C and H kept |
| Registers.Registers.DecByte | src/arch/m68xx/alu.c:117-125 | wrapping decrement; V exactly for 0x80; C kept |
| Registers.Registers.IncByte | src/arch/m68xx/alu.c:142-150 | wrapping increment; V exactly for 0x7F; C kept |
| Registers.Registers.StepWord | src/arch/m68xx/alu.c:130-161 | decword and incword change Z alone |
| Registers.Registers.Shl | src/arch/m68xx/alu.c:194-237 | doubling modulo the width plus the bit shifted in; C the bit lost, V is N xor C |
| Registers.Registers.Shr | src/arch/m68xx/alu.c:210-253 | halving plus the bit shifted in at the top; C the bit lost, V is N xor C |
| Registers.Registers.TestByte | src/arch/m68xx/alu.c:309-316 | N and Z of the operand, V and C cleared |
| Registers.Registers.Daa | src/arch/m68xx/opfunc.c:247-262 | the branching code computes the adjusted sum and keeps a C that was set |
| Alu.AddOverflow | src/arch/m68xx/alu.c:27-38 | the exclusive-or of sign bits and carry is set iff the signed sum does not fit |
| Alu.SubOverflow | src/arch/m68xx/alu.c:258-270 | the same formula on a wrapped difference is set iff the signed difference does not fit |
| Alu.PackRoundTrip | inc/arch/m68xx/reg.h:57-82 | stacking the condition codes and pulling them back restores every flag |
| Words.BitsBit | src/arch/m68xx/alu.c:59-67 | each bit of a bitwise result is the operator on the operands' bits |
| Cpu.Cpu.MemGetB | src/arch/m68xx/memory.c:139-160 | reads through the register block or RAM, 0 past the end, with the side effects of device registers |
| Cpu.Cpu.MemPutB | src/arch/m68xx/memory.c:177-197 | writes through the register block or RAM and changes nothing else |
| Cpu.Cpu.RegSetSp | src/arch/m68xx/reg.c:45-64 | pops the shadow call stack while the untruncated value exceeds its top, then stores the value modulo 65536 |
| CallStack.CallStack.PushEntry | src/base/callstac.c:52-65 | appends an entry, or leaves a full stack of 256 unchanged |
| CallStack.CallStack.PopEntry | src/base/callstac.c:70-84 | removes and returns the top entry; 0 and no change when empty |
| CallStack.CallStack.PopReturned | src/arch/m68xx/reg.c:45-64 | the loop removes exactly the maximal run of top entries below the value |
| CallHistory.SetSpAgrees | src/arch/m68xx/reg.c:27-64 | every reg_setsp, wrapping or not, keeps the call stack equal to the calls whose entry SP has not been exceeded since, and keeps it ordered above SP |
| CallHistory.CallAgrees | src/base/callstac.c:52-65 | a push keeps that equality |
| CallHistory.RunAgrees | src/base/callstac.c:52-106 | after any sequence of pushes and SP changes with fewer than 256 live calls the call stack equals its history definition, entry SPs never increase, and SP never exceeds the top one |
| CallHistory.OverflowDisagrees | src/base/callstac.c:52-65 | the first push onto 256 live calls is exactly where the equality fails |
| CallHistory.WrapLosesCalls | src/arch/m68xx/reg.c:45-64 | an instance of the loss: a call made with SP at 1 gives SP back and the caller's entry not |
| Subroutines.RunTracks | src/arch/h6303/instr.c:61-165 | the equality is kept by every instruction and interrupt of every run |
| Subroutines.CallReturns | src/arch/m68xx/opfunc.c:103-109 | jsr, a balanced body and rts always restore PC and SP, and restore the call stack iff SP was at least 2 or the call stack was empty |
| RegisterOps.ByteOperation | src/arch/m68xx/opfunc.c:142-172 | the accumulator operations through the alu helpers have, digit by digit of the opcode, the sum, difference or bitwise result and the flags that Manual.ByteEffect describes, and change nothing else |
| RegisterOps.ModifyByte | src/arch/m68xx/opfunc.c:95-120 | the read-modify-write operations through the alu helpers have their arithmetic meaning |
| Cpu.Cpu.PushWord | src/arch/m68xx/opfunc.c:78-79 | pushes low byte then high byte, SP wrapping through the 32-bit value |
| Cpu.Cpu.PopWord | src/arch/m68xx/opfunc.c:80-90 | pulls high byte then low byte |
| Cpu.Cpu.BranchOn | src/arch/m68xx/opfunc.c:69-73 | fetches the displacement and adds it or 0 to PC modulo 65536, as the condition of Manual.Condition on the flags says |
| Cpu.Cpu.IntAddress | src/arch/m68xx/opfunc.c:124-136 | for a vector in RAM outside the frame: PC is the word at that vector, the seven bytes are stacked, SP is seven lower, I is set, the handler is recorded as a call, and nothing else changes |
| Cpu.Cpu.ReturnFromInterrupt | src/arch/m68xx/opfunc.c:351-359 | pulls CCR, B, A, X and PC in that order |
| Cpu.Cpu.JumpSubroutine | src/arch/m68xx/opfunc.c:103-109 | pushes PC, jumps, records the call |
| Cpu.Cpu.Return | src/arch/m68xx/opfunc.c:360-364 | pulls PC |
| Cpu.Cpu.ImmediateMemory | src/arch/m68xx/opfunc.c:496-583 | aim, oim, eim and tim: operands read at PC before it advances, indexed address not truncated |
| Cpu.Cpu.Execute | src/arch/m68xx/opfunc.c:142-590 | every function of the opcode table changes the state exactly as its specification |
| Cpu.Cpu.PendingInterrupt | src/arch/h6303/instr.c:72-117 | nothing while I is set; else the vector of the highest source whose flag is raised and enabled, and nothing iff there is none |
| Cpu.Cpu.InstrExec | src/arch/h6303/instr.c:61-165 | one call is one step of the specification that the run theorems are about: interrupt or instruction, cycle count, timers |
| Compare.CompareMeansOrder | src/arch/m68xx/opfunc.c:179-201 | after a compare each branch condition holds iff the unsigned, two's-complement or equality relation it is named for holds |
| Compare.BranchAfterCompare | src/arch/m68xx/opfunc.c:222-240 | two machine steps: after cmpa, cmpb, cba, subd or cpx a branch is taken iff the relation holds between register and operand (signed and equality ones for cpx) |
| Compare.CompareChangesFlagsOnly | src/arch/m68xx/alu.c:292-302 | compares change no register but PC and flags; cpx keeps C |
| Arithmetic.AddChain | src/arch/m68xx/opfunc.c:144-147 | n-byte addition: sum modulo 256^n and the true carry |
| Arithmetic.SubChain | src/arch/m68xx/opfunc.c:366-369 | n-byte subtraction: difference modulo 256^n and the true borrow |
| Arithmetic.DaaByte | src/arch/m68xx/opfunc.c:247-262 | adca then daa on packed bytes: right decimal carry always, right digits except 0x60 short exactly when the tens digits sum to 15 and units plus carry to 10..15 |
| Arithmetic.DecimalChain | src/arch/m68xx/opfunc.c:247-262 | an n-byte decimal sum is right but for the sum of 60*100^i over the short positions |
| Arithmetic.DecimalCarry | src/arch/m68xx/opfunc.c:247-262 | the carry out of any number of bytes is the decimal carry of the true sum |
| Arithmetic.DecimalByte | src/arch/m68xx/opfunc.c:247-262 | every result byte is what adca and daa make of its operands and the true decimal carry into its position |
| Arithmetic.ExactIffNoneShort | src/arch/m68xx/opfunc.c:247-262 | result and carry are the true n-byte decimal sum iff no position is short, taking the true decimal carry into each |
| Arithmetic.DaaCounterexample | src/arch/m68xx/opfunc.c:257-258 | the packed bytes of the counterexample 0x79 and 0x81, worth 79 and 81, sum to 160 but leave 0x00 and carry |
| Arithmetic.Doubled | src/arch/m68xx/opfunc.c:111-114 | lsl of the bottom byte then rol up doubles the n-byte value, the lost bit in C |
| Arithmetic.FirstShift | src/arch/m68xx/opfunc.c:95-115 | lsl and lsr are rotates with C clear, asr one with C the sign bit |
| Arithmetic.LogicalHalf | src/arch/m68xx/opfunc.c:112-115 | lsr of the top byte then ror down gives the unsigned half, the remainder in C |
| Arithmetic.ArithmeticHalf | src/arch/m68xx/opfunc.c:95-99 | asr of the top byte then ror down gives the two's-complement floor half, the remainder in C |
| Arithmetic.ShiftsSetV | src/arch/m68xx/alu.c:194-220 | every shift and rotate sets V to N xor C |
| Arithmetic.RotatesUndo | src/arch/m68xx/opfunc.c:114-115 | rol and ror undo each other on the byte and C |
| Arithmetic.NineRols | src/arch/m68xx/opfunc.c:114 | nine rols are the identity on the byte and C |
| Loops.LoopRuns | src/arch/h6303/instr.c:139-163 | the machine executing a ldaa/adca/staa, ldaa/sbca/staa, ldaa/adca/daa/staa or rol loop with dex and bne runs n passes, leaves the chain's bytes and carry, and touches no other RAM |
| Loops.AdditionLoop | src/arch/m68xx/opfunc.c:144-147 | that loop leaves the n-byte sum modulo 256^n in memory and the carry in C |
| Loops.SubtractionLoop | src/arch/m68xx/opfunc.c:366-369 | the n-byte difference in memory and the borrow in C |
| Loops.DecimalLoop | src/arch/m68xx/opfunc.c:247-262 | the n-byte decimal sum in memory, right but for the shortfall |
| Loops.DoublingLoop | src/arch/m68xx/opfunc.c:114 | the doubled n-byte value in memory, the lost bit in C |
| InterruptedLoops.WholeLoop | src/arch/h6303/instr.c:139-163 | every instruction of such a loop reads and writes the loop's code, operands and results alone |
| InterruptedLoops.InterruptedLoop | src/arch/h6303/instr.c:61-165 | a loop interrupted any number of times, by handlers that return with SP and frame intact and change no code, operand or result byte, ends with the results and carry it computes by itself |
| InterruptedLoops.InterruptedAddition | src/arch/h6303/instr.c:61-165 | so an interrupted addition loop still leaves the n-byte sum and the carry |
| Disassembly.ExecutorAgrees | src/arch/h6303/instr.c:172-267 | for every state and non-trap opcode that does not transfer control, execution advances PC by the length the disassembler returns, plus the displacement of a taken branch |
| Disassembly.SweepVisits | src/base/command.c:65-72 | an unassemble sweep lists exactly the addresses that straight-line execution visits |
| Optab.TableAgrees | src/arch/h6303/optab.c:42-315 | each entry but the traps has the operand count that its operation consumes, and none takes more than 12 cycles |
| Decode.HighOpcodes | src/arch/h6303/optab.c:180-315 | from 0x80 on bit 6 of the opcode chooses the accumulator, bits 4 and 5 the mode, the low digit the operation, and these fix the cycles; word operations, jumps, stores and traps are the listed exceptions |
| Decode.ModifyOpcodes | src/arch/h6303/optab.c:112-178 | from 0x40 to 0x7F the high digit chooses A, B, indexed or extended memory and the low digit the operation, and these fix the cycles |
| Meaning.ByteMeaning | src/arch/m68xx/opfunc.c:142-399 | each accumulator operation in arithmetic or bit by bit: result, N, Z, V, C and H, and no other register changed |
| Meaning.ModifyMeaning | src/arch/m68xx/opfunc.c:95-120 | the same for each read-modify-write operation |
| Instructions.DueIs | src/arch/h6303/instr.c:72-117 | the interrupt to enter, from the bits of TCSR1, TCSR2 and TRCSR: capture 0xFFF6, compare 0xFFF4, overflow 0xFFF2, serial 0xFFF0, in this order |
| Instructions.AccumulatorStep | src/arch/m68xx/opfunc.c:144-399 | one step of any of the ten byte operations with A or B in every mode: new accumulator and flags in numbers, PC, cycles, everything else kept |
| Instructions.WordStep | src/arch/m68xx/opfunc.c:237-312 | one step of subd, addd, cpx, ldd, lds and ldx in every mode; lds drops the calls SP rises past |
| Instructions.StoreStep | src/arch/m68xx/opfunc.c:116-117 | staa and stab: one byte of RAM changes to the accumulator, flags as for a load |
| Instructions.StoreWordStep | src/arch/m68xx/opfunc.c:118-119 | std, sts and stx: high byte at the address, low byte after it |
| Instructions.ModifyAccumulatorStep | src/arch/m68xx/opfunc.c:176-346 | one step of the eleven read-modify-write operations on an accumulator |
| Instructions.ModifyMemoryStep | src/arch/m68xx/opfunc.c:95-120 | the same on one byte of memory, indexed or extended |
| Instructions.ImmediateStep | src/arch/m68xx/opfunc.c:496-582 | aim, oim, eim and tim: immediate byte first, address byte second, indexed address not truncated, tim stores nothing |
| Instructions.ImmediatePastEnd | src/arch/m68xx/opfunc.c:505-582 | an indexed address past the end of memory reads as 0 and is not written |
| Instructions.BranchStep | src/arch/m68xx/opfunc.c:179-209 | every branch opcode: each odd one has the negated condition of the one below it; PC moves by two and, if taken, the signed displacement |
| Branches.AlwaysOrNever | src/arch/m68xx/opfunc.c:202-202 | bra is always taken and brn never |
| Branches.BranchOnResult | src/arch/m68xx/opfunc.c:199-201 | two steps: after a load, store, test, bitwise, arithmetic or shift instruction with result v of w values bmi is taken iff v >= w/2, bpl iff not, beq iff v is 0, bne iff not |
| Branches.BranchOnByteOverflow | src/arch/m68xx/opfunc.c:208-209 | two steps: after a byte addition, subtraction or compare bvs is taken iff the two's-complement result does not fit, bvc iff it does |
| Branches.BranchOnWordOverflow | src/arch/m68xx/opfunc.c:208-209 | the same after addd, subd and cpx |
| Transfers.RegisterStep | src/arch/m68xx/opfunc.c:404-460 | one step of every instruction on registers alone: shifts of D, tap and tpa, inx and dex, condition codes, aba, sba, cba, tab, tba, xgdx, abx, mul, tsx, nop, slp, wai; of daa its flags and what it keeps |
| Transfers.PushStep | src/arch/m68xx/opfunc.c:338-339 | psha, pshb and pshx: bytes in RAM at and below SP |
| Transfers.PullStep | src/arch/m68xx/opfunc.c:340-341 | pula, pulb and pulx, and the calls dropped as SP rises |
| Transfers.StackPointerStep | src/arch/m68xx/reg.c:34-64 | ins, des and txs: SP modulo 65536, the call stack by the 32-bit value |
| Transfers.JumpStep | src/arch/m68xx/opfunc.c:289-290 | jmp |
| Transfers.CallStep | src/arch/m68xx/opfunc.c:103-109 | jsr: return address stacked low byte first, PC, the recorded call with its SP |
| Transfers.RelativeCallStep | src/arch/m68xx/opfunc.c:203-207 | bsr: the target counts from the next instruction and is recorded untruncated |
| Transfers.ReturnStep | src/arch/m68xx/opfunc.c:360-364 | rts: PC from the two bytes above SP |
| Transfers.RestoreStep | src/arch/m68xx/opfunc.c:351-359 | rti: each register from its byte above SP, each flag from its bit |
| Transfers.InterruptStep | src/arch/h6303/instr.c:72-137 | the step that enters the interrupt that is due goes to the word at its literal vector, with the frame below SP, I set, the call recorded, 12 cycles |
| Transfers.SoftwareInterruptStep | src/arch/m68xx/opfunc.c:402-402 | swi does so through 0xFFFA |
| Transfers.TrapStep | src/arch/m68xx/opfunc.c:414-422 | every opcode that is no instruction does so through 0xFFEE |
| Transfers.EveryOpcode | src/arch/h6303/optab.c:42-315 | these step lemmas leave no opcode out |
| RegisterAccess.PlainReads | src/arch/h6303/ireg.c:39-52 | registers without a read handler read as stored, without side effect |
| RegisterAccess.ReadsTcsr1 | src/arch/h6303/timer.c:22-30 | TCSR1 as stored; a set OCF1 is remembered |
| RegisterAccess.ReadsTcsr2 | src/arch/h6303/timer.c:34-50 | bits 7 and 6 from TCSR1, the others from TCSR2; set OCF1 and OCF2 are remembered |
| RegisterAccess.ReadsTrcsr | src/arch/h6303/sci.c:52-58 | bit 7 iff a byte is pending, bit 5 always, the others as stored |
| RegisterAccess.ReadsRdr | src/arch/h6303/sci.c:94-114 | the oldest pending byte while the processor runs, else as stored |
| RegisterAccess.PlainWrites | src/arch/h6303/ireg.c:57-70 | registers without a write handler store the byte and nothing else happens |
| RegisterAccess.WritesPort | src/arch/h6303/ireg.c:29-34 | a port stores, bit by bit, the exclusive or with its direction register |
| RegisterAccess.WritesTcsr | src/arch/h6303/timer.c:54-70 | writes of TCSR1 and TCSR2 both store bits 0 to 4 in TCSR1 and keep its bits 5 to 7 |
| RegisterAccess.WritesOcr1 | src/arch/h6303/timer.c:78-90 | stores the byte and clears a remembered OCF1 |
| RegisterAccess.WritesTrcsr | src/arch/h6303/sci.c:66-85 | stores the byte; bit 2 turns transmit interrupts on or off |
| RegisterAccess.WritesTdr | src/arch/h6303/sci.c:122-137 | stores the byte, appends it to the output, and turns transmit interrupts on if enabled |
| RegisterAccess.SerialInput | src/arch/h6303/sci.c:32-39 | sci_in takes what fits into 1024 bytes |
| RegisterAccess.ClockTicks | src/arch/h6303/timer.c:162-230 | timer_inc bit by bit: the counter modulo 65536, OCF1, OCF2 and CMF raised exactly when their value is reached and their reads forgotten then, T2CNT, every other register kept |
| RegisterAccess.RegisterOperand | src/arch/m68xx/memory.c:139-160 | a direct operand below 0x21 is what reading that register returns, with its side effects |
| RegisterAccess.RegisterStore | src/arch/m68xx/memory.c:177-197 | storing an accumulator there writes the register and no RAM |
| Interrupts.InterruptFrame | src/arch/m68xx/opfunc.c:124-136 | interrupt entry leaves the seven-byte frame, SP seven lower, I set |
| Interrupts.RtiRestores | src/arch/m68xx/opfunc.c:351-359 | rti pulls such a frame back into the registers it came from, flags included |
| Interrupts.EntryFrame | src/arch/m68xx/opfunc.c:124-136 | the step that enters an interrupt leaves the frame, masks further ones, and changes nothing above SP |
| Interrupts.ExcursionRestores | src/arch/h6303/instr.c:61-165 | any handler run, nested interrupts included, that reaches rti with SP and frame intact gives every register back |
| Interrupts.HandlerReturns | src/arch/m68xx/opfunc.c:351-359 | a handler that comes to its rti with SP as the entry left it, nothing changed above that and the program's own bytes unchanged is such a run and leaves the program's bytes alone |
| Interrupts.MaskedRun | src/arch/h6303/instr.c:72-117 | while I is set and no cli, tap or rti is fetched, a run is the program alone whatever interrupts are requested, and I stays set |
| Interrupts.MaskStays | src/arch/m68xx/opfunc.c:213-214 | I stays set through every instruction but cli, tap and rti |
| Interrupts.InterruptsLeaveNoTrace | src/arch/h6303/instr.c:61-165 | if the program by itself relies on its own bytes alone and every handler returns properly and leaves those alone, a run with any number of interrupts ends with the registers and own bytes of the uninterrupted one |
| Interrupts.StackProgramUndisturbed | src/arch/h6303/instr.c:61-165 | the instance for a program that reads no device register and nothing at or below SP but what it pushes: equal registers, and equal RAM above SP |
| Interrupts.PushPullQuiet | src/arch/m68xx/opfunc.c:338-341 | pushing and pulling an accumulator are instructions of such a program |
| Interrupts.ThroughIsRun | src/arch/h6303/instr.c:61-165 | an interleaved run is exactly a run of instr_exec |
| Simulation.StepCore | src/arch/h6303/instr.c:61-165 | neither the stack-pointer history nor the read monitor influences a step |
| Simulation.RunCore | src/arch/h6303/instr.c:61-165 | nor any run |
| RegisterBlock.RegisterBlock.GetByte | src/arch/h6303/timer.c:22-50 | reads of the register block, with the status-read flags and the SCI buffer |
| RegisterBlock.RegisterBlock.PutByte | src/arch/h6303/timer.c:54-90 | writes of the register block; TCSR2 writes go to TCSR1 as in the code |
| RegisterBlock.RegisterBlock.Advance | src/arch/h6303/timer.c:162-230 | one timer_inc: both compares, timer 2 and FRC |
| RegisterBlock.RegisterBlock.PendingRequest | src/arch/h6303/instr.c:91-117 | the vector of the highest source, in the order capture, compare, overflow, serial, whose flag is raised and enabled; none iff there is no such source |
| Device.PendingIsHighest | src/arch/h6303/instr.c:91-117 | that choice is the only one with this property |
| Interrupts.HighestRequestTaken | src/arch/h6303/instr.c:61-165 | with I clear the machine enters the highest request that is raised and enabled; with I set or no request it executes the next instruction |
| Timer6303.FrcIsTotal | src/arch/h6303/timer.c:178-227 | FRC is the cycle total modulo 65536 for every split into steps |
| Timer6303.MatchOnce | src/arch/h6303/timer.c:186-191 | over a run without a wrap of FRC the match comes in exactly one step iff OCR1 lies in (start, end], however batched |
| Timer6303.OneMatchPerLap | src/arch/h6303/timer.c:186-191 | two matches never share a lap of the counter |
| Timer6303.MissedOnWrap | src/arch/h6303/timer.c:186-191 | a step that reaches OCR1 modulo 65536 matches iff it does so before the wrap |
| Timer6303.MissedExample | src/arch/h6303/timer.c:186-191 | counter 0xFFFE, four cycles, compare value 1: reached and missed |
| Timer6303.HandshakeMeaning | src/arch/h6303/timer.c:22-50 | tcsr_is_read is set iff the status was read while OCF1 was set and neither a match nor an OCR1 write came since; and then OCF1 is still set |
| Timer6303.FlagCleared | src/arch/h6303/timer.c:78-90 | an action clears OCF1 iff it is an OCR1 write after such a status read |
| Timer6303.TicksConserved | src/arch/h6303/timer.c:200-211 | ticks of timer 2 over any split, across FRC wraps, total floor((frc+N)/2^p) - floor(frc/2^p) |
| Timer6303.Divisors | src/arch/h6303/timer.c:114-140 | the prescaler divides by two to the power of the shift |
| Timer6303.Timer2Counts | src/arch/h6303/timer.c:200-225 | T2CNT is (start + ticks) mod TCONR and matches number floor((start + ticks)/TCONR), for steps of at most TCONR ticks |
| Timer6303.ShortStepsFit | src/arch/h6303/timer.c:210-222 | steps of at most TCONR cycles are such steps |
| Timer6303.InstructionsAreShort | src/arch/h6303/optab.c:42-315 | no instruction or interrupt entry takes more than 12 cycles |
| MachineTimer.ExecutorStepsFit | src/arch/h6303/timer.c:200-225 | an enabled timer 2 has TCONR at least 16, so steps of at most 12 cycles fit |
| MachineTimer.TimersCountCycles | src/arch/h6303/instr.c:61-165 | over any machine run that does not write FRC, TCONR or T2CNT, interrupts included, FRC counts the cycles modulo 65536 and an enabled timer 2 its ticks modulo TCONR |
| Timer6811.OutputCompare.TflgPutB | src/arch/m6811/timer.c:44-49 | each bit stays set iff it was set and the written byte has a zero there; so channel flags; no other register changes |
| Timer6811.OutputCompare.TocPutB | src/arch/m6811/timer.c:54-96 | a high byte is stored; a low byte latches the distance from TCNT to the register word as it was, then is stored; other offsets change nothing |
| Timer6811.OutputCompare.Advance | src/arch/m6811/timer.c:173-193 | all five counts, the flags bit by bit, TCNT modulo 65536, and every other register unchanged |
| Countdown.LatchedDistance | src/arch/m6811/timer.c:75-81 | the latched count is in 0..65535 iff long is 32 bits wide or TCNT has not passed the word; it is congruent always |
| Countdown.LatchTarget | src/arch/m6811/timer.c:71-87 | the target is the register word read before the new low byte, hence the written word iff the low byte did not change |
| Countdown.StaleLatch | src/arch/m6811/timer.c:71-87 | an instance: after 0x1234 is written over 0 the channel aims at 0x1200 |
| Countdown.WideLatch | src/arch/m6811/timer.c:75-81 | an instance: with a long wider than 32 bits a target one behind is 2^32 - 1 ticks away |
| Countdown.StepKeeps | src/arch/m6811/timer.c:173-193 | a step keeps (ticks + TCNT) mod 65536 and brings ticks from 0..65536 into 1..65536 |
| Countdown.FiresWhenReached | src/arch/m6811/timer.c:176-193 | a channel fires iff its count is 0 or the step carries TCNT through its target modulo 65536 |
| Countdown.ZeroFires | src/arch/m6811/timer.c:181-191 | a count of 0 fires in the next step, which does not reach the target |
| Countdown.PowerUpFires | src/arch/m6811/timer.c:25-35 | the power-up state is such a state for all five channels |
| Countdown.CountdownRuns | src/arch/m6811/timer.c:173-193 | the same over whole runs from any count in 0..65536, with no cycle lost |
| Countdown.FiringCount | src/arch/m6811/timer.c:173-193 | over N cycles in one or more steps of at most 65535, from any count in 0..65536, a channel fires floor((N + 65536 - ticks)/65536) times |
| Timer6805.PrescaledTimer.OcrPutB | src/arch/m6805/timer.c:54-76 | the compare value becomes the register word plus the counter; OCF cleared if the status was read |
| Timer6805.PrescaledTimer.Advance | src/arch/m6805/timer.c:103-136 | one timer_inc with its 32-bit cycle count |
| PrescaledCompare.BelowCompare | src/arch/m6805/timer.c:103-136 | frc < ocr after every timer step; a match sets OCF and reduces the counter |
| PrescaledCompare.CounterInStep | src/arch/m6805/timer.c:103-120 | through any mixture of accesses and steps below 2^32 cycles the counter equals the prescaled total modulo 65536 |
| PrescaledCompare.FrcRegister | src/arch/m6805/timer.c:103-120 | after a step FRC is floor(N/4) mod 65536 for every split from the start |
| PrescaledCompare.MatchAfterWrite | src/arch/m6805/timer.c:54-136 | after an OCR low-byte write leaving value v the first match comes in the first timer step by which v ticks have passed |
| CompareHandshake.ReadMeaning | src/arch/m6805/timer.c:30-93 | since the start tsr_is_read is set iff the status was read while OCF was set and since then OCR was not accessed and OCF not set anew, or nothing of that has happened yet |
| CompareHandshake.FlagCleared | src/arch/m6805/timer.c:54-93 | an action clears OCF iff it accesses the low byte of OCR after such a status read |
| CompareHandshake.FlagSet | src/arch/m6805/timer.c:126-136 | an action sets OCF iff it is a timer step that matches |
| RegisterBlock.RegisterBlock.ReceiveBytes | src/arch/h6303/sci.c:32-39 | sci_in appends what fits and returns how many bytes that was |
| RegisterBlock.RegisterBlock.ReadRdr | src/arch/h6303/sci.c:94-114 | a read while the CPU runs delivers the oldest pending byte; an emptied buffer restarts at its beginning |
| Sci.QueueRefined | src/arch/h6303/sci.c:32-114 | on every run delivered bytes followed by pending ones are the initial ones followed by the accepted ones, and the indices stay in the buffer |
| Sci.AcceptsWhatFits | src/arch/h6303/sci.c:32-39 | sci_in accepts min(n, room), and a drained buffer has its full room again |
| Sci.ReceiveFlag | src/arch/h6303/sci.c:52-58 | RDRF is seen set iff bytes are pending |
| Sci.ReceiveInterrupt | src/arch/h6303/sci.c:52-58 | with only the receive interrupt enabled, one is requested iff RDRF is seen set |
| Spi.SerialPeripheral.Receive | src/arch/m6811/spi.c:30-45 | spi_in appends what fits |
| Spi.SerialPeripheral.SpdrPutB | src/arch/m6811/spi.c:76-100 | acknowledge, transfer if SPIF is clear, forget the status read |
| SpiProtocol.ClockedInOrder | src/arch/m6811/spi.c:30-100 | bytes clocked in are the accepted inputs in order, none lost or repeated; the buffer never overflows |
| SpiProtocol.InterruptMeansSpif | src/arch/m6811/spi.c:60-100 | spi_interrupt implies SPIF on every run |
| SpiProtocol.FlagMeaning | src/arch/m6811/spi.c:53-100 | what the handshake flag and SPIF say about the history of accesses |
| SpiProtocol.TransferCondition | src/arch/m6811/spi.c:76-100 | a write transfers iff it is the first or SPSR was read since the last one; otherwise it changes nothing |
| SpiProtocol.TransfersBounded | src/arch/m6811/spi.c:53-100 | transfers never exceed one plus the status reads |
| SpiProtocol.InterruptMeaning | src/arch/m6811/spi.c:60-100 | since reset spi_interrupt is set iff SPIF is and SPIE was at the latest transfer |
| SpiProtocol.InputTakes | src/arch/m6811/spi.c:30-45 | spi_in takes what fits into 1024 bytes |
| NcCpu.Board.PutB | src/boards/nccpu.c:357-360 | the ring write records one more byte of the stream |
| NcCpu.Board.LatchOutput | src/boards/nccpu.c:392-396 | board i gets the bytes at offsets 2*(7-i) and 2*(7-i)+1 of the last sixteen written, zeros before the first |
| ShiftRing.RingHoldsLast | src/boards/nccpu.c:357-360 | read on from its index the ring is the last sixteen bytes of the stream, whatever the index |
| ShiftRing.BoardsGetLastSixteen | src/boards/nccpu.c:392-396 | hence what each board gets, for every stream |
| ShiftRing.OldBytesForgotten | src/boards/nccpu.c:357-396 | nothing before the last sixteen bytes matters |
| S19.Loader.LoadLine | src/base/fileio.c:76-122 | 0 iff the line is accepted; RAM changes by exactly the record's data, stored even when the checksum fails |
| S19.Loader.LoadFile | src/base/fileio.c:145-158 | loads line by line and stops at the first rejected one |
| S19Format.EncodeRoundTrip | src/base/fileio.c:61-115 | an encoded record is readable, accepted, and carries exactly its address and data |
| S19Format.LoadInvertsEncode | src/base/fileio.c:61-115 | if the data fit, the encoded line can be loaded, and loading it changes exactly those bytes to the data |
| S19Format.AlterationRejected | src/base/fileio.c:87-113 | altering any one address, data or checksum byte of an accepted record gets it rejected |
| S19Format.OrderIrrelevant | src/base/fileio.c:145-156 | pairwise non-overlapping records leave the same RAM in every order |
| S19Format.Digits | src/base/fileio.c:91-102 | hexadecimal digits of both cases have their value |
| S19Format.OtherLines | src/base/fileio.c:87-121 | a line that is not S1 stores nothing; it is accepted iff it does not begin with S or is an S0 or S9 line |
| I2c.Simulator.Sample | src/boards/i2c_sim.c:600-649 | one call of i2c_sim on the bit buffers is one step of the bit-stream specification |
| I2c.Simulator.LatchBit | src/boards/i2c_sim.c:331-375 | a rising edge in output mode appends one bit, runs the addressed device, and passes one low bit to the master iff that bit is acknowledged |
| I2c.Simulator.AnswerBit | src/boards/i2c_sim.c:376-402 | a falling edge in input mode passes the next answer bit |
| I2c.Simulator.AddByte | src/boards/i2c_sim.c:64-92 | eight set_bit calls append the byte so that it is read back most significant bit first |
| BitBuffer.OneBitChanges | src/boards/i2c_sim.c:39-62 | i2c_set_bit changes the bit that i2c_get_bit then reads, and no other |
| Xicor.EdgesAreEvents | src/boards/i2c_sim.c:614-648 | the chips depend on the lines only through decoded events |
| Xicor.FramesAreDataEdges | src/boards/i2c_sim.c:610-632 | a frame is open iff a falling data edge with the clock high has come and no rising one since |
| WiperMemory.WriteTakes | src/boards/i2c_sim.c:219-228 | a completed WRITE_WIPER sets its wiper and is acknowledged |
| WiperMemory.OnlyWritesChange | src/boards/i2c_sim.c:165-233 | nothing else changes a wiper |
| WiperMemory.LastWriteHolds | src/boards/i2c_sim.c:165-233 | through any history a wiper holds the last value written to it |
| WiperMemory.UnwrittenIsZero | src/boards/i2c_sim.c:146-152 | a wiper never written is zero |
| WiperMemory.ReadReturnsLastWrite | src/boards/i2c_sim.c:189-198 | after any history, the eight answer bits of a READ_WIPER are the last value written, most significant first |
| WiperMemory.WipersAreMemory | src/boards/i2c_sim.c:614-648 | the same at the level of clock and data edges |
| Master.WriteTransaction | src/boards/i2c_sim.c:165-233 | after any history a start condition and a frame with the 24 command bits, with any acknowledgement clocks in it, complete a write |
| Master.AckedWrite | src/boards/i2c_sim.c:165-233 | the three bytes with an acknowledgement clock after each but the last are such a frame |
| Master.AckedRead | src/boards/i2c_sim.c:165-233 | the same for the two bytes of a read command |
| Master.ReadTransaction | src/boards/i2c_sim.c:165-233 | the same for the 16 command bits of a read |
| Master.TransactionSpares | src/boards/i2c_sim.c:165-233 | a transaction whose first two bytes are not a write command for a potentiometer leaves it alone |
| Master.WriteThenReadReturns | src/boards/i2c_sim.c:165-233 | after any history: a write, any transactions that are not writes to the same potentiometer, and a read of it; the next eight input-mode falling edges pass the value, most significant bit first |
| Master.WriteThenReadOnLines | src/boards/i2c_sim.c:614-648 | the same for clock and data edges from power-up |
| Master.WriteIsOne | src/boards/i2c_sim.c:165-233 | a completed write names one potentiometer and one value |
| Master.DrivenBus | src/boards/i2c_sim.c:614-648 | decoding inverts driving, from any levels of the lines, for masters that listen and masters that drive data while they raise the clock before a start or stop |
| Acknowledge.ShiftAcknowledged | src/boards/i2c_sim.c:165-233 | after any history, a bit of a frame adds one low bit to what the master clocks in iff it completes an address byte 0101iiii, then a command byte 1001 or 1010, or the value byte of a write; else nothing |
| Acknowledge.OthersQuiet | src/boards/i2c_sim.c:310-322 | starts, stops and anything outside a frame add nothing |
| Acknowledge.OnlyReadsAnswer | src/boards/i2c_sim.c:186-198 | a frame without a complete read command has nothing to answer |
| Acknowledge.NothingToRead | src/boards/i2c_sim.c:376-402 | so a clock pulse in which the master listens adds nothing there |
| Acknowledge.FrameTrace | src/boards/i2c_sim.c:165-233 | what a whole frame adds is the acknowledgements of its bits in turn, whatever came before |
| Acknowledge.CommandTrace | src/boards/i2c_sim.c:165-233 | a read or write command, with listening pulses anywhere in it, is acknowledged once a byte |
| Acknowledge.SessionTrace | src/boards/i2c_sim.c:165-233 | all that a master clocks in that writes a potentiometer, stops and reads it back: five low bits and the eight bits of the value |
| Acknowledge.DrivenSessionTrace | src/boards/i2c_sim.c:614-648 | the same on the lines, from any history, for both kinds of master |
| Master.DrivenWriteThenRead | src/boards/i2c_sim.c:614-648 | end to end on the lines, for both kinds of master and from any history: write with acknowledgement clocks, stop, start, read command, and the eight bits clocked in are the value written |

## Left out

- Processor parts: `call_level`, `rti_pc`, breakpoints, tracing, warnings and every printed message.
- The X and S condition-code bits, which always read as one on this family member.
- wai and slp, which are no-ops in the model as they are in the table; stop and the interactive IRQ query.
- The value that instr_exec returns, and reset.
- Instructions of the 6811 and 6805 that the 6303 table does not use, and the 6301, 6800 and 6811 tables.
- The step lemmas of `Instructions.dfy`, `Branches.dfy` and `Transfers.dfy` take the instruction, its operands and the stack to lie in RAM, clear of the top of memory; direct byte operands in the register block are in `RegisterAccess.dfy`. The specification and the methods have no such limit.
- `Transfers.RegisterStep`: of daa it states N, Z, V and what is kept; its result and carry are `Arithmetic.DaaByte`.
- Addresses past the end of memory: a read gives 0 and a write is ignored.
- `cpu_getncycles` as a bounded counter: cycles are an unbounded natural number.
- P6CSR and the other registers without handlers are plain memory; `ocr2_putb` is not installed in the write table and is not part of this model.
- SCI output beyond a list of bytes handed to `io_putb`, and the duplicate SCI drivers of the other processors.
- The 6811 free-running counter's prescaler, which the source compiles out, and its other timer registers.
- `Timer6303.Timer2Counts`: steps with more ticks than TCONR, which the source does not reduce twice; instructions never produce them.
- `Timer6805.PrescaledTimer.Advance`: the C longs frc and ocr are unbounded; they stay below 2^32 as long as the 32-bit cycle count does.
- ACK_CLOCK mode, the plain I2C branch of `i2c_sim_frame`, other device types and the X9241 commands marked unimplemented, which only print.
- `I2c.Simulator.Sample`: more than 2048 bits after one start condition, which overflow the source's buffer.
- The rest of the NC-CPU board: buttons, clocking bytes in from them, triac display.
- sscanf: fields are two or four valid hexadecimal digits; data past the end of RAM; opening and reading the file.
- `S19.Loader.LoadFile`: a file without lines, for which the source returns an uninitialised value.
- Command loop, terminal, symbol files, hex dump, sockets and the graphical front end.
