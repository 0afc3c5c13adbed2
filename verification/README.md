# Proofs about the VICE emulator core

This project models parts of the VICE Commodore emulator and proves what they
are for. The parts share no code; each has its own modules. Run
`dafny verify dfyconfig.toml` here to verify everything.

**Two processor cores.** The emulator has the 6510 instruction set written
twice: `src/6510core.c` adds clock amounts per opcode, `src/6510dtvcore.c` steps
bus cycles with idle reads and double writes. `Isa.dfy` is a third, independent
form: boolean flags, a decoder built from the bit fields of the opcode, one
effect per operation, one cycle count per access and addressing mode. Both cores
(`Core6510.dfy`, `CoreDtv.dfy`, over the shared flag macros and arithmetic of
`Machine.dfy` and `CoreCommon.dfy`) are proved to compute it, so that
`Lockstep.dfy` can run them side by side. The opcode tables of both switches are
reproduced invocation by invocation, with their clock arguments.

What that third form computes is proved apart from its own definition.
`IsaMeans.dfy` and `IsaDecimal.dfy` say it of registers and flags over whole
numbers (`Numbers.dfy` has the bit vectors as numbers): sums, differences,
comparisons, shifts and single binary digits, in decimal mode for all bytes.
`IsaSteps.dfy` says it of addresses, stores, branches, the stack and the clock.
`Monitor.dfy` has the opcode list of the machine code monitor, a table the cores
do not use, and proves that the decoder and the program counter agree with it.
`IsaLaws.dfy` proves what instructions undo for each other, and `Bcd.dfy` reads
decimal mode as arithmetic on decimal numbers of any length.

**Alarms and the clock guard.** `AlarmQueue.dfy` has the operations on the
pending array and the cached next alarm as functions of values and proves what
they keep and mean; `AlarmContext.dfy` has the objects updated in place, with
the back-index of every alarm; `AlarmDispatch.dfy` the dispatch loop with
callbacks that disarm or re-arm their alarm; `ClkGuard.dfy` the guard that pulls
the 32-bit clock back. `AlarmRuns.dfy` relates whole runs of the guarded
machine to a clock that is never pulled back and to an ideal machine made of a
natural number and a map.

**GCR tracks.** `GcrCode.dfy` is the group code with its shift accumulators and
the properties of its bit stream, `GcrTrack.dfy` the searches on a circular
track, `GcrSectors.dfy` the write-then-read theorem on arbitrary tracks,
`GcrFormat.dfy` the formatter, `GcrLayout.dfy` the refinement of a formatted
track to a map from sector numbers to contents, `GcrImage.dfy` the track a
drive formats for a disk image, to which that refinement applies, and
`GcrBytes.dfy` that track byte by byte, every error included.

**Smaller parts.** `FindPath.dfy`: the in-place path rewriter against a
component stack. `ColorLists.dfy`, `ColorAlloc.dfy`: shared, owner-counted
backend colours. `Crc32.dfy`: table CRC against bitwise CRC. `Fixpoint.dfy`:
split products against exact rounding. `Datasette.dfy`: the tape window read in
both directions, with the search for a long gap, and the pulse writer.
`EventLog.dfy`: the event history, its snapshot module and its timestamps.
`Cartconv.dfy`: the cartridge packer and loader, with the loaders and savers of
the emulator itself in `EasyFlash.dfy` and `GenericCart.dfy`, so that each reads
what the other writes. `Fliplist.dfy`: the doubly linked flip ring;
`FlipFile.dfy`: the rings of all four drives and the text file they are saved in.

## How to read the model

- Code that works in place is a class or an array method whose `ensures` ties the
  new state to a function of the old one; the properties are lemmas about that
  function, or hold of the function's value by the method's other clauses.
  Linked lists that are only appended to, filtered and copied (colour lists, event
  list, alarm list) are fields of sequence type; the flip ring has real nodes.
- The processor: memory is 64 KB of plain RAM, addresses wrap at 16 bits and in
  page zero, the clock is a natural number whose residues are the 32-bit values,
  fetching costs two clocks plus one where `fetch_tab` says so, `SKIP_CYCLE` is
  0, no interrupt or alarm is pending during an instruction.
- Alarm clocks are numbers below 2^32 with explicit wrap-around; the size of the
  clock type is a parameter, so that the same functions describe the 32-bit
  clock and one wide enough never to need pulling back.
- A run of the guarded machine is safe when no clock or set time leaves the clock
  type, and at each pull-back something is pending and nothing pending lies
  before the amount taken off. The dispatch loop leaves the second condition
  true; without the first, `AlarmQueue.WarpBackKeepsLeast` says what breaks.
- Callbacks, the display backend and file contents are parameters: a function
  from the number of a call to its answer, or a sequence of bytes.

## Where the code differs from what it is for

- Setting an alarm for the largest clock value on an empty queue leaves the
  cached index stale (`AlarmQueue.SetOnEmptyNames`).
- A time warp with nothing pending shifts the cached clock, which then is no
  longer the largest value (`AlarmQueue.WarpBackKeepsLeast`).
- A tape pulse of seven cycles is written as a zero byte, which a version 1
  reader takes for the marker of a long gap (`Datasette.SevenIsAMarker`).
- The search for a gap before the position ends at the start of a record, but a
  second or third short gap behind a long one, where the byte four back is a zero
  of that long gap, is misread as the first of them;
  `Datasette.Tape.ReadBackward` has the exact condition and
  `Datasette.LongThenShort` a written tape that meets it.
- Off the start of a record, where seven cycles written over a longer tape can
  leave the position, a backward read can step over the start of the tape
  (`Datasette.Tape.ReadBackward`; `Datasette.RewindAfterSeven` is such a run).
- A timestamp due between the guard's maximum and the pull-back is inserted
  after the overflow event (`EventLog.OverflowBeforeStamp`);
  `EventLog.StampedStrict` says for all histories when that happens.
- An EasyFlash image that is entirely empty is saved as a cartridge that fails
  to load (`Cartconv.EasyFlashRoundTrip`).
- The cartridge loaders do not check that packages fit their buffer; the model
  stops at the first that does not, and `Cartconv.FlashOutside` with
  `Cartconv.InsideIsPlace` says for which files that is.
- Flip lists come back reversed, and loading a saved file always reports an error
  (`FlipFile.SaveLoadAll`), because it looks for a line after the last one.

## Model

| member | source | states |
|---|---|---|
| `CoreCommon.FetchTabIsWordOperand` | src/6510core.c:1586-1604 | the fetch table marks exactly the opcodes whose instruction takes a 16-bit operand, JSR excepted, which fetches its high byte itself |
| `CoreCommon.ZeroWrap` | src/6510core.c:454-470 | indexed zero-page and pointer addresses wrap inside page zero |
| `CoreCommon.PageCross` | src/6510core.c:430-453 | the carry out of the low address byte is exactly a page crossing |
| `CoreCommon.UnstableTarget` | src/6510core.c:499-537 | where a SHA, SHX, SHY or SHS store lands when its index crosses a page |
| `CoreCommon.BranchPage` | src/6510core.c:692-710 | the exclusive-or test of a branch is exactly a change of page |
| `CoreCommon.SignedCharExtends` | src/6510core.c:692-710 | the branch offset is the sign-extended operand |
| `CoreCommon.SavedRegister` | src/6510core.c:1264-1280 | the value a store macro writes is the register, or for SAX the AND of two |
| `CoreCommon.StoreSh` | src/6510core.c:499-537 | an unstable store writes the narrowed value at the address the reference gives |
| `Machine.SetNZ` | src/6510core.c:110 | N and Z follow the value and no other flag moves |
| `Machine.SetOverflow` | src/6510core.c:113-130 | only V changes, to the given value |
| `Machine.SetStatus` | src/6510core.c:166-168 | pulling a status byte sets every flag from its bit |
| `Machine.LocalStatus` | src/6510core.c:177-180 | the status byte gathers N, Z and the flag bits, with the unused bit set |
| `Machine.DecimalDigits` | src/6510core.c:556-588 | the decimal digit sum before correction of the upper digit, bounded by nine bits |
| `Machine.Adc` | src/6510core.c:556-588 | binary and decimal ADC give the accumulator and all flags of the reference addition |
| `Machine.Sbc` | src/6510core.c:1282-1313 | binary and decimal SBC give the accumulator and all flags of the reference subtraction |
| `Machine.Arr` | src/6510core.c:614-643 | ARR in both modes: accumulator and flags of the reference |
| `Machine.Cmp` | src/6510core.c:752-783 | compare sets N, Z and C from the difference and leaves the register |
| `Machine.BitTest` | src/6510core.c:679-690 | BIT takes N and V from the operand and Z from the AND |
| `Machine.Anc` | src/6510core.c:590-596 | AND with the sign copied into the carry |
| `Machine.Asr` | src/6510core.c:668-677 | AND followed by a logical shift right |
| `Machine.Sbx` | src/6510core.c:1315-1326 | X becomes A AND X minus the operand, with the borrow as carry |
| `Machine.Ane` | src/6510core.c:606-612 | the unstable ANE with the constant of the source |
| `Machine.Lxa` | src/6510core.c:1033-1038 | the unstable LXA with the constant of the source |
| `Machine.RotateRight` | src/6510core.c:1165-1190 | ROR brings the carry in at the top |
| `Machine.RotateLeft` | src/6510core.c:1140-1163 | ROL brings the carry in at the bottom and bit 8 is the old sign |
| `Machine.ShiftBody` | src/6510core.c:645-658 | shifts, rotates, INC and DEC of a memory operand: value and flags of the reference |
| `Machine.ReadBody` | src/6510core.c:556-612 | every operation that reads an operand has the reference effect on the registers |
| `Machine.ImpliedBody` | src/6510core.c:726-750 | every implied operation has the reference effect on the registers |
| `Machine.BranchCondition` | src/6510core.c:692-710 | the flag test of each branch opcode |
| `Machine.Combine` | src/6510core.c:1105-1119 | the second half of SLO, RLA, SRE and RRA is the plain operation on the shifted value |
| `Machine.CombineCount` | src/6510core.c:785-799 | the second half of DCP and ISB is the plain operation on the counted value |
| `Machine.ArithmeticIgnoresNZ` | src/6510core.c:883-896 | ADC, SBC and CMP do not depend on the N and Z that the first half left |
| `Machine.ModifyKeepsIndex` | src/6510core.c:785-833 | no read-modify-write operation changes X or Y, so its address is the same before and after |
| `Machine.Cpu.Load` | src/mainc64cpu.c:235-238 | a read returns the byte and is one bus access |
| `Machine.Cpu.Store` | src/mainc64cpu.c:230-233 | a write changes one byte of memory and is one bus access |
| `Machine.Cpu.PushByte` | src/6510core.c:308-315 | a push writes page one at the stack pointer and decrements it modulo 256 |
| `Machine.Cpu.PullByte` | src/6510core.c:308-315 | a pull increments the stack pointer modulo 256 and reads page one there |
| `Core6510.SwitchAgrees` | src/6510core.c:1967-2937 | for all 256 opcodes the macro invocation of the switch means the instruction that the opcode bits decode to, and its clock and program-counter arguments add up to the documented cycles and length |
| `Core6510.LoadZeroAddr` | src/maincpu.c:158-159 | a zero-page pointer is read with wrap-around inside page zero |
| `Core6510.LoadAbsI` | src/6510core.c:430-453 | an indexed read adds one clock exactly on a page crossing |
| `Core6510.LoadIndirectY` | src/6510core.c:457-463 | the indirect indexed read with its page-crossing clock |
| `Core6510.ReadMacro` | src/6510core.c:984-1006 | a reading instruction, from operand address to new state |
| `Core6510.SaveMacro` | src/6510core.c:1479-1540 | a storing instruction writes the register at the effective address |
| `Core6510.StaIndYMacro` | src/6510core.c:1496-1506 | STA indirect indexed |
| `Core6510.SloRlaSreRra` | src/6510core.c:1402-1457 | the combined shift operations leave the shifted value and the registers of the reference |
| `Core6510.DcpIsb` | src/6510core.c:785-917 | the combined counting operations leave the counted value and the registers of the reference |
| `Core6510.ModifyMacro` | src/6510core.c:645-658 | a read-modify-write instruction, with its single write of the result |
| `Core6510.ModifyIndYMacro` | src/6510core.c:801-818 | the undocumented indirect indexed read-modify-write instructions |
| `Core6510.ShAbsMacro` | src/6510core.c:1348-1400 | SHA, SHX, SHY and SHS absolute indexed |
| `Core6510.ShaIndYMacro` | src/6510core.c:1357-1373 | SHA indirect indexed |
| `Core6510.BranchMacro` | src/6510core.c:692-710 | a branch: target, one clock when taken, another when the page changes |
| `Core6510.PushPullMacro` | src/6510core.c:1069-1103 | PHA, PHP, PLA and PLP |
| `Core6510.BrkMacro` | src/6510core.c:712-724 | BRK pushes the address after its operand and the status with B, sets I and takes the vector |
| `Core6510.JsrMacro` | src/6510core.c:954-966 | JSR pushes the address of its last byte and reads the high byte after the pushes |
| `Core6510.RtiMacro` | src/6510core.c:1239-1249 | RTI restores status and program counter |
| `Core6510.RtsMacro` | src/6510core.c:1251-1262 | RTS returns to the byte after the pushed address |
| `Core6510.JmpMacro` | src/6510core.c:939-952 | both jumps; the indirect one stays inside the page of its pointer |
| `Core6510.Execute` | src/6510core.c:1967-2937 | expanding any invocation of the switch does what its instruction does |
| `Core6510.Step` | src/6510core.c:1870-2937 | one pass of the interpreter is one step of the reference instruction set: registers, flags, memory, program counter and clock |
| `Core6510.Run` | src/6510core.c:1870-2937 | n passes are n reference steps, for every program and memory image |
| `CoreDtv.SwitchAgrees` | src/6510dtvcore.c:1510-2458 | the same for the 256 opcodes of the cycle-stepped switch |
| `CoreDtv.IntAbsIR` | src/6510dtvcore.c:389-393 | the idle read of an indexed address happens exactly on a page crossing, at the uncorrected address |
| `CoreDtv.IntIndX` | src/6510dtvcore.c:501-510 | pointer fetch of indexed indirect addressing, one clock per access |
| `CoreDtv.IntIndYPointer` | src/6510dtvcore.c:522-544 | pointer fetch of indirect indexed addressing, one clock per access |
| `CoreDtv.Get` | src/6510dtvcore.c:370-554 | every GET function fetches the operand at the effective address in the documented time |
| `CoreDtv.Set` | src/6510dtvcore.c:377-560 | every SET function stores at the effective address |
| `CoreDtv.SetRmw` | src/6510dtvcore.c:381-567 | the read-modify-write stores write the old value and then the new one: two bus accesses, memory as if written once |
| `CoreDtv.LastPokeWins` | src/6510dtvcore.c:561-567 | writing twice to one address leaves the second value |
| `CoreDtv.ModifyMacro` | src/6510dtvcore.c:702-711 | a read-modify-write instruction of the cycle-stepped core |
| `CoreDtv.ReadMacro` | src/6510dtvcore.c:643-650 | a reading instruction of the cycle-stepped core |
| `CoreDtv.SaveMacro` | src/6510dtvcore.c:1373-1377 | a storing instruction of the cycle-stepped core |
| `CoreDtv.ShAbsMacro` | src/6510dtvcore.c:1328-1338 | SHX, SHY, SHA and SHS absolute indexed |
| `CoreDtv.ShaIndYMacro` | src/6510dtvcore.c:1316-1326 | SHA indirect indexed |
| `CoreDtv.BranchMacro` | src/6510dtvcore.c:770-791 | a branch with its idle reads |
| `CoreDtv.PushPullMacro` | src/6510dtvcore.c:1093-1134 | PHA, PHP, PLA and PLP with their idle reads |
| `CoreDtv.BrkMacro` | src/6510dtvcore.c:793-835 | BRK, one clock per push and vector read |
| `CoreDtv.JsrMacro` | src/6510dtvcore.c:1008-1023 | JSR with its idle stack read |
| `CoreDtv.RtiMacro` | src/6510dtvcore.c:1212-1227 | RTI with its idle stack read |
| `CoreDtv.RtsMacro` | src/6510dtvcore.c:1229-1244 | RTS with its idle reads |
| `CoreDtv.JmpMacro` | src/6510dtvcore.c:993-1006 | both jumps |
| `CoreDtv.Execute` | src/6510dtvcore.c:1510-2458 | expanding any invocation does what its instruction does, one clock per bus access |
| `CoreDtv.Step` | src/6510dtvcore.c:1495-2458 | one pass is one reference step, and the clock advances by exactly the number of bus accesses |
| `CoreDtv.Run` | src/6510dtvcore.c:1495-2458 | n passes are n reference steps, the clock in step with the bus throughout |
| `Lockstep.RunBoth` | src/6510core.c:1860-2937 | from equal states both cores reach equal registers, flags, memory and clock after any number of instructions of any program, although one writes each read-modify-write result once and the other twice |
| `Bcd.AddByte` | src/6510core.c:556-588 | decimal ADC of two valid decimal bytes is their decimal sum with carry in and out |
| `Bcd.SubtractByte` | src/6510core.c:1282-1313 | decimal SBC of two valid decimal bytes is their decimal difference with borrow in and out |
| `Bcd.AddChain` | src/6510core.c:556-588 | chaining decimal ADC over n bytes computes the 2n-digit sum, final carry included |
| `Bcd.SubtractChain` | src/6510core.c:1282-1313 | chaining decimal SBC over n bytes computes the 2n-digit difference, final borrow included |
| `Bcd.ValueBound` | src/6510core.c:556-588 | n valid decimal bytes denote a number below 100 to the n |
| `Bcd.ValueIsInjective` | src/6510core.c:556-588 | valid decimal strings of equal length with equal values are equal |
| `Bcd.SubtractUndoesAdd` | src/6510core.c:1282-1313 | the SBC chain undoes the ADC chain, also when the sum has overflowed |
| `IsaLaws.WordOnStack` | src/6510core.c:308-315 | a pushed word is pulled back, at every stack pointer, wrapping included |
| `IsaLaws.CallPushes` | src/6510core.c:954-966 | JSR leaves the address of its last byte on the stack |
| `IsaLaws.CallReturns` | src/6510core.c:1251-1262 | a subroutine that leaves that address and the stack pointer as found returns to the instruction after the call |
| `IsaLaws.BreakPushes` | src/6510core.c:712-724 | BRK leaves the address after its operand and the status with B on the stack, and sets I |
| `IsaLaws.BreakReturns` | src/6510core.c:1239-1249 | RTI undoes BRK: program counter and stack pointer of before, and the flags of before with B set |
| `IsaLaws.StatusRoundTrip` | src/6510core.c:166-180 | packing the flags in a status byte and unpacking them loses nothing |
| `IsaLaws.PullAfterPush` | src/6510core.c:1069-1103 | PLA undoes PHA and PLP undoes PHP |
| `IsaLaws.RunAdds` | src/6510core.c:1870-2937 | a run of m + n instructions is a run of n after one of m |
| `Monitor.ListAgrees` | src/monitor/asm6502.c:41-328 | the decoder finds for every opcode the mnemonic and the addressing mode of the opcode list of the monitor |
| `IsaSteps.StepMeans` | src/6510core.c:1870-1965 | a step reads opcode and operand bytes at the program counter, around the end of memory |
| `IsaSteps.OperandMeans` | src/6510core.c:1586-1604 | the operand is a word, low byte first, exactly where the monitor lists three bytes, JSR excepted |
| `IsaSteps.NextInstruction` | src/monitor/asm6502.c:41-328 | every instruction that does not jump moves the program counter by the size the monitor lists for it |
| `IsaMeans.CompareMeans` | src/6510core.c:752-783 | CMP, CPX and CPY over numbers: carry exactly when the register is at least the operand, Z exactly on equality, N as bit 7 of the difference modulo 256, and nothing else changed |
| `IsaMeans.SbxMeans` | src/6510core.c:1315-1326 | SBX over numbers: A AND X minus the operand modulo 256, with the flags of that comparison |
| `IsaMeans.AdcMeans` | src/6510core.c:556-588 | binary ADC: the result and 256 times the carry are the sum with carry; V exactly when the signed sum leaves -128 to 127 |
| `IsaMeans.SbcMeans` | src/6510core.c:1282-1313 | SBC: the difference with borrow modulo 256 in binary mode, and in both modes the carry exactly without a borrow, V exactly when the signed difference leaves -128 to 127, N and Z of the binary difference |
| `IsaDecimal.AdcDecimalMeans` | src/6510core.c:556-588 | decimal ADC of any two bytes, decimal digits or not: each half over nine is taken on by six, lower half first, with the four flags where the source takes them |
| `IsaDecimal.SbcDecimalMeans` | src/6510core.c:1282-1313 | decimal SBC of any two bytes: each half that borrows is taken down by six, lower half first |
| `IsaDecimal.ArrMeans` | src/6510core.c:614-643 | binary ARR: AND and rotate right, with C and V from the two digits below the sign |
| `IsaDecimal.ArrDecimalMeans` | src/6510core.c:614-643 | decimal ARR of any bytes: the rotation, each half taken on by six when the half it came from and its lowest bit are over five, and where the flags come from |
| `IsaMeans.ShiftMeans` | src/6510core.c:645-658 | ASL, ROL, LSR and ROR: twice the short side and the bit that falls out are the long side and the bit that comes in; N, Z and nothing else |
| `IsaMeans.AccuShiftMeans` | src/6510core.c:660-666 | the same in the accumulator |
| `IsaMeans.CountMeans` | src/6510core.c:820-867 | INC and DEC count modulo 256 and keep the carry |
| `IsaMeans.IndexCountMeans` | src/6510core.c:834-882 | INX, DEX, INY and DEY count modulo 256 |
| `IsaMeans.CombinedMeans` | src/6510core.c:1105-1119 | the combined operations leave the shifted or counted value, and registers as the second operation on that value with the carry of the first |
| `IsaMeans.LogicMeans` | src/6510core.c:598-604 | AND, ORA and EOR work on each binary digit by itself |
| `IsaMeans.BitMeans` | src/6510core.c:679-690 | BIT: N and V are the two upper digits of the operand, Z whether it has no digit in common with A |
| `IsaMeans.LoadMeans` | src/6510core.c:968-1006 | the loads, LAX into two registers and LAS into three |
| `IsaMeans.TransferMeans` | src/6510core.c:1542-1582 | the transfers, of which TXS alone touches no flag |
| `IsaMeans.AndCarryMeans` | src/6510core.c:590-596 | ANC is AND with the carry as the sign, ASR is AND and LSR |
| `IsaMeans.UnstableLoadMeans` | src/6510core.c:606-612 | ANE and LXA digit by digit, with 0xee fixed |
| `IsaMeans.ClearMeans` | src/6510core.c:726-750 | the clearing instructions clear their flag and nothing else |
| `IsaMeans.SetMeans` | src/6510core.c:1328-1346 | the setting instructions set their flag and nothing else |
| `IsaSteps.AddressMeans` | src/6510core.c:425-497 | every effective address as a number: page zero wraps at 256, everything else at 65536, pointers stay in page zero |
| `IsaSteps.CrossedMeans` | src/6510core.c:430-453 | a page crossing is a change of address divided by 256 |
| `IsaSteps.ReadMeans` | src/6510core.c:984-1006 | a reading instruction: operand, next instruction, and its time as one cycle per byte, pointer byte, index in page zero and access, and one for a crossing |
| `IsaSteps.SaveMeans` | src/6510core.c:1479-1540 | a store writes one byte and always takes the cycle of the crossing |
| `IsaSteps.SavedMeans` | src/6510core.c:1264-1280 | STA, STX and STY store their register, SAX the digits A and X have in common |
| `IsaSteps.ModifyMeans` | src/6510core.c:645-658 | a read-modify-write instruction puts its result where its operand was, two cycles later than a store |
| `IsaSteps.ImpliedMeans` | src/6510core.c:726-750 | instructions without operand take one byte and two cycles |
| `IsaSteps.StoredMeans` | src/6510core.c:1348-1400 | the unstable stores store, digit by digit, their source AND the page plus one |
| `IsaSteps.UnstableMeans` | src/6510core.c:499-537 | where they store, also across a page, and that SHS sets the stack pointer |
| `IsaSteps.UnstableSourceMeans` | src/6510core.c:1348-1400 | what they store from |
| `IsaSteps.TakenMeans` | src/6510core.c:1967-2937 | which flag and which value each of the eight branch opcodes waits for |
| `IsaSteps.BranchMeans` | src/6510core.c:692-710 | a branch goes as far as its signed operand says from the next instruction, modulo 65536, in two, three or four cycles |
| `IsaSteps.StatusMeans` | src/6510core.c:166-180 | the status byte as the sum of its flags |
| `IsaSteps.StatusPulled` | src/6510core.c:166-180 | pulling any byte as the status and pushing it again only sets the unused digit |
| `IsaSteps.StackMeans` | src/6510core.c:1069-1103 | PHA and PHP store in page one at the stack pointer and count it down modulo 256 |
| `IsaSteps.PullMeans` | src/6510core.c:1069-1103 | PLA and PLP count it up modulo 256 and load there |
| `IsaSteps.CallMeans` | src/6510core.c:954-966 | JSR pushes the address of its last byte, high byte first, and changes nothing else in memory |
| `IsaSteps.ReturnMeans` | src/6510core.c:1251-1262 | RTS goes to the byte after the address it pulls |
| `IsaSteps.ResumeMeans` | src/6510core.c:1239-1249 | RTI pulls the status and then the address it goes to |
| `IsaSteps.BreakMeans` | src/6510core.c:712-724 | BRK pushes address and status with B, sets I and takes the vector at 65534 |
| `IsaSteps.JumpMeans` | src/6510core.c:939-952 | both jumps; the pointer of the indirect one stays in its page |
| `AlarmQueue.ScanFindsLeast` | src/alarm.h:112-131 | the minimum search returns the least clock and an index that holds it |
| `AlarmQueue.RescanOk` | src/alarm.h:112-131 | after a search the cached clock and index name a true minimum |
| `AlarmQueue.RescanNamesLast` | src/alarm.h:112-131 | of equal clocks a search names the last |
| `AlarmQueue.SetKeepsOk` | src/alarm.h:148-186 | setting an alarm, new or pending, keeps the array duplicate-free and the cache a true minimum |
| `AlarmQueue.SetOnEmptyNames` | src/alarm.h:165-176 | on an empty queue the cached index names the new alarm exactly when its clock is below the largest value or the stale index is 0 |
| `AlarmQueue.UnsetKeepsOk` | src/alarm.c:159-198 | unsetting keeps both, also when the entry moved into the hole was the cached minimum |
| `AlarmQueue.SetLeavesNext` | src/alarm.h:148-186 | setting another alarm for no earlier leaves the next alarm next, at its place |
| `AlarmQueue.UnsetLeavesNext` | src/alarm.c:159-198 | unsetting another alarm leaves the next alarm next, also when it is moved |
| `AlarmQueue.WarpMeans` | src/alarm.c:78-97 | a warp moves every clock by the amount, forward or back |
| `AlarmQueue.SetMeans` | src/alarm.h:148-186 | as a map of due times: that alarm gets the new time, all others keep theirs, and a new alarm beyond 256 is dropped |
| `AlarmQueue.UnsetMeans` | src/alarm.c:159-198 | as a map of due times: that alarm goes, all others keep their times |
| `AlarmQueue.NextIsEarliest` | src/alarm.h:107-146 | some alarm is due exactly when the clock has reached the cached one, and the cached alarm is one due soonest |
| `AlarmQueue.WarpBackKeepsLeast` | src/alarm.c:78-97 | a warp back keeps the cached minimum exactly when nothing is taken off, or something is pending and no pending clock wraps or all do |
| `AlarmQueue.IndexOfSwapRemoved` | src/alarm.c:174-187 | swap-remove changes the position of exactly the last entry |
| `AlarmDispatch.ReactionProgress` | src/alarm.h:133-146 | a callback that unsets its alarm or re-arms it strictly later shortens the backlog of overdue ticks |
| `AlarmDispatch.DispatchIsLegal` | src/6510core.c:1870-1873 | the dispatch loop terminates, and every firing takes an alarm due soonest, with offset the time since it was due, until none is due |
| `AlarmDispatch.LegalInOrder` | src/6510core.c:1870-1873 | due times of successive firings never go back |
| `AlarmDispatch.LegalFiresDue` | src/6510core.c:1870-1873 | every alarm due at the start fires with exactly its delay; later alarms do not fire and keep their times |
| `AlarmDispatch.LegalLeavesLater` | src/6510core.c:1870-1873 | afterwards every pending alarm is later than the CPU clock |
| `AlarmContexts.AlarmContext.constructor` | src/alarm.c:48-56 | a new context has no alarms and the largest clock cached |
| `AlarmContexts.AlarmContext.NewAlarm` | src/alarm.c:101-133 | a new alarm joins the head of the list and is not pending |
| `AlarmContexts.AlarmContext.UpdateNextPending` | src/alarm.h:112-131 | the loop over the array is the minimum search |
| `AlarmContexts.AlarmContext.Set` | src/alarm.h:148-186 | setting in place is the value-level set, and every back-index stays the exact inverse of the array |
| `AlarmContexts.AlarmContext.FillHole` | src/alarm.c:174-187 | copying the last entry into the hole is swap-remove, with the moved alarm told its new place |
| `AlarmContexts.AlarmContext.Unset` | src/alarm.c:159-198 | unsetting in place is the value-level unset, and every back-index stays the exact inverse of the array |
| `AlarmContexts.AlarmContext.TimeWarp` | src/alarm.c:78-97 | the loop moves every pending clock and the cached one, whether or not anything is pending |
| `AlarmContexts.AlarmContext.DispatchNext` | src/alarm.h:133-146 | the alarm called back is the cached one, with offset CPU clock minus due clock |
| `AlarmContexts.AlarmContext.DispatchDue` | src/6510core.c:1870-1873 | the loop in place fires exactly the value-level dispatch |
| `ClkGuard.ClockSubFits` | src/clkguard.c:105-118 | the amount is the largest multiple of the base that leaves the reserve below the maximum |
| `ClkGuard.GuardedClock.constructor` | src/machine.c:170-179 | the main guard starts at base 0 with the largest clock minus the reserve as maximum |
| `ClkGuard.GuardedClock.PreventOverflow` | src/clkguard.c:120-139 | below the maximum nothing happens; otherwise clock and alarms move back by the same amount, and the queue stays in order exactly under the condition of the warp lemma |
| `AlarmRuns.StepKeepsInv` | src/machine.c:158-162 | every step of a safe run keeps the queue in order with a named minimum |
| `AlarmRuns.GuardLeaves` | src/clkguard.c:120-139 | the guard leaves a clock below its maximum alone and takes a multiple of the base off one that has reached it, leaving the reserve and less than one base more |
| `AlarmRuns.WidenedSet` | src/alarm.h:148-186 | setting commutes with moving all clocks |
| `AlarmRuns.WidenedUnset` | src/alarm.c:159-198 | unsetting commutes with moving all clocks |
| `AlarmRuns.StepWidens` | src/clkguard.c:120-139 | each step of the guarded 32-bit machine is the same step of an unguarded wide one |
| `AlarmRuns.GuardedRunFiresTheSame` | src/clkguard.c:105-139 | any safe run of advances, sets, unsets, dispatches and pull-backs fires the same alarms, ties included, at the same true times and offsets as a clock too wide to overflow |
| `AlarmRuns.WideRunIsLegal` | src/alarm.h:107-186 | a run on the wide clock is a legal run of a natural-number clock and a map of due times |
| `AlarmRuns.GuardedRunIsIdeal` | src/clkguard.c:105-139 | any safe guarded 32-bit run is a legal run of that ideal machine in true time |
| `AlarmRuns.PullBackAfterDispatch` | src/clkguard.c:120-139 | pulling back is safe whenever nothing is due and something is pending |
| `GcrCode.CodesRoundTrip` | src/gcr.c:40-50 | the decoding table undoes the encoding table |
| `GcrCode.CodeBits` | src/gcr.c:40-44 | the group code bit by bit as a formula of the four bits of the nibble |
| `GcrCode.OnlyCodes` | src/gcr.c:46-50 | a code read as a nibble other than 0 is the code of that nibble |
| `GcrCode.DecodeEncode4` | src/gcr.c:53-95 | decoding a group undoes encoding it |
| `GcrCode.Convert4BytesToGcr` | src/gcr.c:53-70 | the shift accumulator fills the five bytes of the group code and nothing else |
| `GcrCode.ConvertGcrTo4Bytes` | src/gcr.c:72-95 | the shift accumulator fills the four bytes of the group and nothing else |
| `GcrCode.SyncByteInGroup` | src/gcr.c:40-70 | a group holds an all-ones byte exactly for low nibble 5 before high nibble E in the middle, and then only in third place |
| `GcrCode.DecodeEncodeAll` | src/gcr.c:40-95 | decoding undoes encoding for any number of groups |
| `GcrCode.SyncBytes` | src/gcr.c:40-70 | an aligned all-ones byte appears exactly where a group has second byte low nibble 5 and third byte high nibble E |
| `GcrCode.CodeStream` | src/gcr.c:53-70 | the bit stream of an encoding is the stream of its 5-bit codes |
| `GcrCode.ZeroRuns` | src/gcr.c:40-70 | never three zero bits in a row, for any number of groups |
| `GcrCode.OneRuns` | src/gcr.c:40-70 | never nine one bits in a row, for any number of groups |
| `GcrTrack.NextSync` | src/gcr.c:171-175 | the first all-ones byte from a place on |
| `GcrTrack.SyncEnd` | src/gcr.c:177-180 | the end of a run of all-ones bytes |
| `GcrTrack.SkipSync` | src/gcr.c:177-187 | skipping a sync mark around the track end, giving up exactly when the count reaches the track size |
| `GcrTrack.ReadGroup` | src/gcr.c:189-195 | five bytes around the track end, and whether it was passed |
| `GcrTrack.FindSectorHeader` | src/gcr.c:158-205 | the loops terminate and find what the search function says, with sync bytes counted over the whole search |
| `GcrTrack.FindSectorData` | src/gcr.c:207-229 | both loops terminate on a track with a byte that is not all ones, and find the end of the next sync mark within 500 bytes |
| `GcrTrack.FoundHasData` | src/gcr.c:223-227 | a found header implies such a byte |
| `GcrTrack.BlockChecksum` | src/gcr.c:273-280 | the contents and their checksum cancel out |
| `GcrTrack.ChecksumChange` | src/gcr.c:275-277 | a change of any one byte, the first and the last included, changes the checksum by as much |
| `GcrImage.ZeroChecksum` | src/gcr.c:275-277 | the checksum of zeros is zero |
| `GcrTrack.ConvertGcrToSector` | src/gcr.c:138-156 | the 65 groups from a place on, around the track end, are decoded |
| `GcrTrack.FillBlock` | src/gcr.c:273-280 | marker, contents, checksum and two zero bytes |
| `GcrTrack.EncodeGroups` | src/gcr.c:131-135 | the 65 groups of a block are encoded in place and nothing else changes |
| `GcrTrack.ReadGcrSector` | src/gcr.c:231-255 | reading is header search, data search and decoding, failing without a header, data or marker |
| `GcrTrack.WriteGcrSector` | src/gcr.c:257-298 | writing overlays the encoded block at the data found, around the track end, or changes nothing |
| `GcrSectors.HeaderIsLocal` | src/gcr.c:158-205 | a header found at least six bytes into the track was found without passing its end, from the bytes before it alone |
| `GcrSectors.KillerTracks` | src/gcr.c:177-187 | the count of sync bytes gives up exactly on a track of nothing else: it never hides a header that the search without it finds |
| `GcrSectors.DataIsLocal` | src/gcr.c:207-229 | a data block strictly after the header is found from the bytes before it alone |
| `GcrSectors.DataSearch` | src/gcr.c:207-229 | the data search goes behind the first all-ones byte among the 500 bytes from the header on, around the track end, and fails exactly without one or on a track of nothing else |
| `GcrSectors.WriteThenRead` | src/gcr.c:158-298 | on any track and contents: if the header does not run over the track end and the block lies after header and data sync before the track end, the write changes only its 325 bytes and the read gives the contents back |
| `GcrFormat.HeaderBytes` | src/gcr.c:104-117 | the header carries number and track, and the header mark exactly without error 20 |
| `GcrFormat.HeaderChecksum` | src/gcr.c:104-117 | the header bytes cancel out exactly without error 27 |
| `GcrLayout.LaidGroup` | src/drive/driveimage.c:139-144 | falsifying marker or checksum of a block does not make or remove an all-ones byte |
| `GcrFormat.FormattedParts` | src/gcr.c:97-136 | where sync, header, ID, gap, sync and block lie |
| `GcrFormat.ConvertSectorToGcr` | src/gcr.c:97-136 | the formatter lays down those parts and leaves its nine-byte gap as it was |
| `GcrLayout.RecordShape` | src/gcr.c:97-136 | a quiet record has all-ones bytes in its two sync marks and nowhere else |
| `GcrLayout.RecordSearch` | src/gcr.c:158-205 | the header search stops at a record that answers and passes over any other, having counted ten sync bytes |
| `GcrLayout.BlockIsNoHeader` | src/gcr.c:197-202 | a data block is never taken for a header |
| `GcrLayout.TrackSearch` | src/gcr.c:158-205 | the search finds the first record that answers, for any number of records |
| `GcrLayout.TrackReads` | src/gcr.c:231-255 | every read returns the entry of the map the track stands for, or fails where there is none |
| `GcrLayout.TrackWrites` | src/gcr.c:257-298 | a write changes exactly one entry, which it makes readable, and leaves a formatted track, or fails where there is none |
| `GcrLayout.TrackIsMap` | src/gcr.c:97-298 | after any sequence of writes every sector reads as the map says |
| `GcrImage.FormatTrack` | src/drive/driveimage.c:104-149 | clearing a track and formatting any number of sectors in place gives exactly the layout of their records, errors 20, 22, 23, 27 and 29 included, or a blank track for error 21 |
| `GcrBytes.RecordReads` | src/gcr.c:97-136 | the 354 bytes of every record by position: five all-ones bytes, header and ID decoded byte by byte with what errors 20, 27 and 29 falsify, the gap, five all-ones bytes, and the block with what errors 22 and 23 falsify |
| `GcrBytes.SectorBytes` | src/drive/driveimage.c:104-149 | sector k of an image lies at k times the distance, with its number, contents and error, and filler between |
| `GcrBytes.Blank` | src/drive/driveimage.c:104-149 | filler is 0x55, and an error 21 leaves zeros in place of all records |
| `GcrImage.RecordsQuiet` | src/drive/driveimage.c:104-149 | with contents that hold no all-ones byte, fewer than 225 sectors make a track the map theorem applies to |
| `GcrImage.RecordsFind` | src/drive/driveimage.c:104-149 | such a track stands for the map from sector numbers to what can be read of the sectors in the image |
| `GcrImage.ImageReads` | src/gcr.c:231-255 | on such a track every sector reads as the image has it, and fails outside the image, on a blanked track, or with a falsified header mark or block marker |
| `GcrImage.ZeroesQuiet` | src/diskimage/fsimage-create.c:88-117 | the sectors of a new disk hold no all-ones byte |
| `FindPath.UnsplitSplit` | src/findpath.c:88-136 | splitting at slashes loses nothing |
| `FindPath.SplitUnsplit` | src/findpath.c:88-136 | joining components and splitting again gives them back |
| `FindPath.RenderDirectories` | src/findpath.c:68-86 | an absolute directory is the rendering of its components, with one slash at its end |
| `FindPath.CopyBase` | src/findpath.c:68-86 | the buffer starts with the base directory, always ended by a slash |
| `FindPath.Copy` | src/findpath.c:92-136 | one character: the four-state automaton and the write pointer keep the buffer equal to stack and component being read |
| `FindPath.StepBack` | src/findpath.c:124-131 | backing up removes the last directory, stays at the root, and never leaves the buffer |
| `FindPath.Normalise` | src/findpath.c:62-140 | the rewriter equals resolving components on a stack, the last taken verbatim, inside the buffer, and fails exactly when the lengths do not fit |
| `FindPath.NormaliseTwice` | src/findpath.c:62-140 | the result is absolute, and normalising it again changes nothing |
| `FindPath.ResolveCancels` | src/findpath.c:88-136 | anywhere in a path a name and the step up after it cancel |
| `FindPath.ResolveIgnores` | src/findpath.c:88-136 | anywhere in a path empty components and single dots are no matter |
| `FindPath.AboveRoot` | src/findpath.c:88-136 | a step up from the root stays there |
| `ColorLists.OwnerRemoved` | src/color.c:120-148 | removing an owner removes it and no other |
| `ColorLists.RemoveOwnerMeans` | src/color.c:241-247 | taking an owner off the list takes nothing from anyone else |
| `ColorLists.AddFromMeans` | src/color.c:249-267 | adding an owner from another list gives it exactly those colours |
| `ColorLists.AddOneFirst` | src/color.c:249-267 | an owner is added to the first entry of a colour, behind its owners, and nothing else changes |
| `ColorLists.OwnedColors` | src/color.c:269-285 | splitting off the ownerless entries splits the colours |
| `ColorLists.OwnedMeans` | src/color.c:269-276 | it takes nothing from any owner, and every entry left has one |
| `ColorLists.CommonMeans` | src/color.c:218-239 | comparing splits a list by what the other list has |
| `ColorLists.CommonJoins` | src/color.c:218-239 | comparing keeps the order of the list |
| `ColorLists.PixelFound` | src/color.c:287-329 | an owned colour has the pixel of the first entry that the owner holds |
| `ColorLists.PixelsLineUp` | src/color.c:287-329 | when every colour is there the returned pixels line up with the palette |
| `ColorAlloc.RequestMeans` | src/color.c:412-467 | a successful request: conservation of backend colours, other owners untouched, the caller owns exactly its palette, no ownerless entry left |
| `ColorAlloc.ListedOrder` | src/color.c:412-467 | new colours come behind the old ones, which stay in order |
| `ColorAlloc.Backend.AllocColor` | src/color.c:366-370 | a granted request adds one colour to the live ones |
| `ColorAlloc.Backend.FreeColor` | src/color.c:389-398 | freeing takes one colour away |
| `ColorAlloc.Allocator.constructor` | src/color.c:402-405 | an empty list over a backend that has handed nothing out |
| `ColorAlloc.Allocator.PaletteToList` | src/color.c:175-194 | one entry owned by the caller for each palette entry |
| `ColorAlloc.Allocator.CompareList` | src/color.c:218-239 | the nested loops split the list by colour |
| `ColorAlloc.Allocator.AllocNewColors` | src/color.c:359-387 | all colours granted, or none kept |
| `ColorAlloc.Allocator.RemoveOwnerFromList` | src/color.c:241-247 | the loop takes the owner off every entry |
| `ColorAlloc.Allocator.AddOwnerFromOther` | src/color.c:249-267 | the nested loops add the owner to the first entry of each colour |
| `ColorAlloc.Allocator.Select` | src/color.c:269-285 | the entries with, or without, an owner |
| `ColorAlloc.Allocator.FillPixelReturn` | src/color.c:287-329 | the nested loops return the pixels found, without holes |
| `ColorAlloc.Allocator.FreeColors` | src/color.c:389-398 | exactly the listed colours go back |
| `ColorAlloc.Allocator.AllocColors` | src/color.c:412-467 | success or failure, the live backend colours are exactly those listed; success exactly when every wanted colour is granted; the palette rule, and the pixel of every palette entry |
| `Crc32.BitsAtOnce` | src/crc32.c:49-56 | eight message bits entering one by one equal the byte combined at once |
| `Crc32.StepsLinear` | src/crc32.c:49-56 | the register steps are linear over exclusive-or |
| `Crc32.TableStep` | src/crc32.c:58-60 | eight bit steps are one table lookup |
| `Crc32.PresetComplements` | src/crc32.c:42-63 | the preset of ones complements the first four bytes of a message |
| `Crc32.CheckValue` | src/crc32.c:42-63 | the check value of the digits from 1 to 9 |
| `Crc32.Checksum.FillTable` | src/crc32.c:49-56 | every table entry is its index stepped eight times |
| `Crc32.Checksum.Crc32Buf` | src/crc32.c:42-63 | for every buffer the low 32 bits are the bit-at-a-time reflected CRC of section 8 of RFC 1952, with a 64-bit unsigned long and signed characters |
| `Fixpoint.RoundedIsNearest` | src/fixpoint.c:48-65 | the reference rounding is to the nearest integer, halves away from zero |
| `Fixpoint.MagnitudeIsRounded` | src/fixpoint.c:57-63 | the partial products add up to the rounded product modulo the word |
| `Fixpoint.FixpointMultIsRounded` | src/fixpoint.c:48-65 | the result is the rounded exact product exactly when that is a 32-bit signed number |
| `Fixpoint.SoundclkMultIsFloor` | src/fixpoint.c:67-73 | the result is the product rounded down exactly when that fits the type, and is right modulo the type otherwise |
| `Datasette.Tape.Fread` | src/datasette.c:231 | the buffer holds the image from there on, as far as both reach |
| `Datasette.Tape.MoveBufferForward` | src/datasette.c:220-237 | the window reaches far enough ahead or to the end of the tape, failing exactly at its end |
| `Datasette.Tape.MoveBufferBack` | src/datasette.c:239-259 | the window reaches back far enough, a buffer length, or to the start of the tape; where the index stands then, and how far ahead the window reaches |
| `Datasette.Tape.FetchGap` | src/datasette.c:261-284 | the record in the window, none outside it or when a long gap is cut off |
| `Datasette.WindowRecord` | src/datasette.c:261-284 | such a window decodes like the whole image |
| `Datasette.Tape.ReadForward` | src/datasette.c:346-375 | reading forward gives the record at the file position and moves past it, for any file length and any window, and stays between records |
| `Datasette.Tape.RewindInARow` | src/datasette.c:301-320 | the rewinding loop stops where three bytes in a row are not zero, or at the start, whatever window it goes through |
| `Datasette.Tape.ForwardByGaps` | src/datasette.c:322-335 | the forward loop goes gap by gap until the limit is reached or passed by less than four bytes |
| `Datasette.Tape.ReadGapBackwardV1` | src/datasette.c:296-344 | the record found is the one where both searches land; position and window stay consistent |
| `Datasette.Tape.FindGapBefore` | src/datasette.c:354-370 | plain step or search, the window holds what stands before the position |
| `Datasette.ThreeInARow` | src/datasette.c:298-320 | three bytes in a row that are not zero end at the start of a record, so that the search resynchronises |
| `Datasette.LandingReached` | src/datasette.c:296-344 | from the end of any record the search lands at the start of a record, the first that is at most four bytes back |
| `Datasette.BeforeIsPrevious` | src/datasette.c:346-375 | between records, what is taken for the record before has the length of the record before, and its gap if and only if not misread |
| `Datasette.Tape.ReadBackward` | src/datasette.c:296-398 | reading backward at any position, the search for a long gap included; off the start of the tape exactly for a zero byte of version 1 in the first three bytes with three bytes after it; between records it always goes back by the record before, and gives its gap if and only if that is not misread |
| `Datasette.ReadAndReturn` | src/datasette.c:346-375 | between records, a backward read undoes any forward read, and gives the same gap if and only if that is not misread; elsewhere it undoes a one-byte record that is read plainly |
| `Datasette.BackwardLeavesTape` | src/datasette.c:354-375 | what stands before a position is longer than the tape up to there exactly for a zero byte of a version 1 image in the first three bytes with three bytes after it |
| `Datasette.RewindAfterSeven` | src/datasette.c:753-796 | seven cycles recorded within the first three bytes of a longer version 1 tape, and rewinding from there, end before the start of the tape |
| `Datasette.Recorder.BitWrite` | src/datasette.c:753-796 | the bytes written for the time since the last pulse, at the position, times below seven dropped |
| `Datasette.GapRoundTrip` | src/datasette.c:764-795 | a written gap of at least 8 cycles reads back rounded down to a multiple of 8 plus tuning when short, or as its 24 bits when long |
| `Datasette.WrittenLength` | src/datasette.c:764-795 | how many bytes a time is written in, and that one byte holds its eighth |
| `Datasette.SevenIsAMarker` | src/datasette.c:261-284 | seven cycles, and no other time, are written as a lone zero byte in version 1, which reads as a long gap made of the next three bytes, or as the end of the tape where fewer follow |
| `Datasette.LongThenShort` | src/datasette.c:296-344 | after a written long gap below 65536 cycles and three short ones, the last is misread as the first unless they are written alike |
| `Datasette.TapeRoundTrip` | src/datasette.c:753-796 | a whole recording reads back gap by gap |
| `EventLog.ParseModule` | src/event.c:1108-1140 | what is written is found again, up to the first list end and without timestamps |
| `EventLog.EventLayout` | src/event.c:1120-1132 | an event is three numbers of four bytes, lowest byte first, and its data |
| `EventLog.GuardClocks` | src/clkguard.c:105-118 | the clocks the stamping theorems speak of are those of any clock guard, for seconds that fit above its maximum |
| `EventLog.StampedStrips` | src/event.c:1059-1097 | inserting timestamps and dropping them gives back the history |
| `EventLog.StampedProgress` | src/event.c:1067-1083 | the inserted timestamps are one machine second apart in true time, across every overflow and every reset |
| `EventLog.StampedPlaced` | src/event.c:1067-1083 | every timestamp stands before all later events; before an overflow, those below the maximum of the guard |
| `EventLog.StampsFollow` | src/event.c:1067-1083 | a timestamp is put in at all exactly when some event reaches the first due time |
| `EventLog.StampedStrict` | src/event.c:1067-1083 | with an overflow taken at its true time, every timestamp stands before all later events if and only if no due second falls between what the reader takes for the time of an overflow and the pull-back, with a later event that brings it in |
| `EventLog.StrictIsPlaced` | src/event.c:1067-1083 | strict placement implies placement |
| `EventLog.History.Record` | src/event.c:288-328 | a known event is appended at the current clock, before a new list end |
| `EventLog.KnownKinds` | src/event.c:288-328 | which of the kinds are recorded, and which of them without data |
| `EventLog.History.ClkOverflow` | src/event.c:1254-1262 | an overflow is recorded after the pull-back and the next timestamp moves with the clock |
| `EventLog.History.WriteModule` | src/event.c:1108-1140 | all events but timestamps are written in order |
| `EventLog.History.InsertStamps` | src/event.c:1067-1079 | the inner loop inserts exactly the timestamps that are due, without wrapping |
| `EventLog.History.Append` | src/event.c:1059-1097 | one event with its timestamps, start mode, overflow and reset |
| `EventLog.History.ReadModule` | src/event.c:999-1106 | the loops read exactly the stamped history, failing exactly on a short module, and the playback time is one less than the timestamps put in, or 0 |
| `EventLog.HistoryRoundTrip` | src/event.c:999-1140 | writing, reading and dropping timestamps gives the events up to the first list end |
| `EventLog.HistorySeconds` | src/event.c:999-1106 | across overflows and resets the timestamps count whole seconds from the first event on, and stand before all later events if and only if no second misses an overflow |
| `EventLog.OverflowBeforeStamp` | src/event.c:1067-1083 | for every guard, a whole history whose second falls between the maximum and the pull-back: the reader puts that timestamp after the overflow |
| `Cartconv.HeaderReads` | src/cartconv.c:589-611 | a package header reads back as its length, the low byte of its bank, and its address |
| `Cartconv.HeaderLayout` | src/cartconv.c:589-612 | what the sixteen bytes of a package header say, by position: signature, package length, type, bank, address, size of the contents |
| `Cartconv.LengthReads` | src/cartconv.c:472-500 | a package length of four bytes, highest first, is read as the size of the contents |
| `Cartconv.RegularRoundTrip` | src/cartconv.c:472-500 | loading the packages of any number of equal banks appends exactly the banks, as long as they fit the buffer, and leaves it otherwise |
| `Cartconv.RegularPackage` | src/cartconv.c:635-661 | package k of equal banks: where it lies, its bank number and its contents |
| `Cartconv.RegularLoads` | src/cartconv.c:635-661 | a binary of any number of equal banks comes back as it was if the buffer holds it |
| `Cartconv.BanksEnd` | src/cartconv.c:472-500 | what may follow the last package: fewer than sixteen bytes, or a failure |
| `Cartconv.InsideIsPlace` | src/cartconv.c:465-467 | an EasyFlash package stays in the buffer exactly up to bank 63, or as the last two bytes of a file in bank 64 |
| `Cartconv.FlashTail` | src/cartconv.c:445-470 | the same for EasyFlash files |
| `Cartconv.FlashOutside` | src/cartconv.c:445-470 | the EasyFlash loader leaves its buffer exactly when some package does that only packages come before |
| `Cartconv.HoldsStep` | src/cartconv.c:445-470 | a half bank put in its place, or left out because empty, extends what the buffer holds |
| `Cartconv.FlashRoundTrip` | src/cartconv.c:733-759 | from any half bank on, loading what was saved completes the image |
| `Cartconv.EasyFlashRoundTrip` | src/cartconv.c:733-759 | any 1 MB image that is not empty comes back, although empty half banks are left out and the chips interleaved; an empty one fails to load |
| `Cartconv.Converter.WriteChipPackage` | src/cartconv.c:589-626 | header and contents are appended and the offset moves on |
| `Cartconv.Converter.SaveRegularCrt` | src/cartconv.c:635-661 | the packages of all banks, their number from the file size when not given |
| `Cartconv.Converter.CheckEmptyEasyflash` | src/cartconv.c:721-731 | whether the half bank is all ones |
| `Cartconv.Converter.SaveHalf` | src/cartconv.c:742-752 | an empty half bank is passed over, any other written |
| `Cartconv.Converter.SaveEasyflashCrt` | src/cartconv.c:733-759 | the packages of all half banks that are not empty |
| `Cartconv.Converter.LoadAllBanks` | src/cartconv.c:472-500 | the contents of all packages in the buffer, an error when there are none, and where reading on would leave the buffer |
| `Cartconv.Converter.LoadEasyflashCrt` | src/cartconv.c:445-470 | every half bank in its interleaved place over an empty image, an error when there are none, and where reading on would leave the buffer |
| `EasyFlash.ConvertedAttaches` | src/c64/cart/easyflash.c:339-380 | the emulator takes every EasyFlash file the converter writes, an empty one too, and finds the half banks of the binary in turn in its two chips |
| `EasyFlash.SavedAttaches` | src/c64/cart/easyflash.c:339-380 | what the emulator saves it attaches again as it was |
| `EasyFlash.SavedConverts` | src/c64/cart/easyflash.c:453-515 | what the emulator saves the converter turns into the binary again, unless it is empty |
| `EasyFlash.ThereAndBack` | src/c64/cart/easyflash.c:339-515 | any binary, converted, attached, saved by the emulator and converted back, comes back, unless it is empty |
| `EasyFlash.Cartridge.EasyflashCrtAttach` | src/c64/cart/easyflash.c:339-380 | the loop places every package, by bank, address and size from the header, or refuses the file |
| `EasyFlash.Cartridge.ConfigSetup` | src/c64/cart/easyflash.c:287-297 | the image goes to the two chips |
| `EasyFlash.Cartridge.CrtSave` | src/c64/cart/easyflash.c:453-515 | the packages of all half banks of the chips that are not empty |
| `GenericCart.GenericRoundTrip` | src/c64/cart/generic.c:165-217 | every plain binary of 4, 8, 12 or 16 KB that the converter has a form for comes out of the loader of the emulator at its place and as the type it was meant for |
| `GenericCart.GenericCrtAttach` | src/c64/cart/generic.c:165-217 | the loader in place: one chip at 0x8000, one at the top of memory, or both |
| `GenericCart.SaveGenericCrt` | src/cartconv.c:1377-1408 | the converter writes the packages for the size that was loaded, with and without Ultimax |
| `GenericCart.LowAttaches` | src/c64/cart/generic.c:165-217 | a single chip at 0x8000 is taken exactly from one page to 64, and for which type |
| `GenericCart.TopAttaches` | src/c64/cart/generic.c:165-217 | a chip is taken for Ultimax exactly when it starts at 0xe000 or above and ends at the top of memory |
| `EasyFlash.AcceptableExactly` | src/c64/cart/easyflash.c:350-375 | of the packages the converter can write the emulator takes exactly half banks at one of three addresses and whole banks at 0x8000, in banks below 64 |
| `EasyFlash.SameHeaders` | src/c64/cart/easyflash.c:485-500 | the package headers of the emulator are those of the converter, byte for byte, but for the type |
| `EasyFlash.WholeBank` | src/c64/cart/easyflash.c:362-371 | a package of 16 KB goes to both chips, half and half |
| `EasyFlash.AttachTail` | src/c64/cart/easyflash.c:346-376 | what may follow the last package: fewer than sixteen bytes, or a refusal |
| `Fliplist.Ring.constructor` | src/fliplist.c:48-51 | an empty list |
| `Fliplist.Ring.AddImage` | src/fliplist.c:170-196 | the new image becomes the head of a well-formed ring; an empty name is not taken |
| `Fliplist.Ring.Unlink` | src/fliplist.c:208-213 | taking a node out leaves a well-formed ring of the others |
| `Fliplist.Ring.RemoveHead` | src/fliplist.c:198-219 | the head goes and the next image becomes head |
| `Fliplist.Ring.Remove` | src/fliplist.c:220-247 | exactly the first node with that image goes, if there is one |
| `Fliplist.Ring.Rotate` | src/fliplist.c:249-257 | the ring turns by one image either way |
| `Fliplist.Ring.InitIterate` | src/fliplist.c:266-276 | a walk starts at the head |
| `Fliplist.Ring.NextIterate` | src/fliplist.c:278-289 | a walk goes on until it is back at the head |
| `Fliplist.Ring.Images` | src/fliplist.c:266-289 | a walk visits every node once, in order |
| `Fliplist.Ring.Clear` | src/fliplist.c:291-307 | the loop goes once around and leaves an empty list |
| `Fliplist.UnlinkedLinked` | src/fliplist.c:240-241 | linking the neighbours of a node to each other makes a ring of the others |
| `Fliplist.PushedLinked` | src/fliplist.c:183-187 | splicing a node in before the head makes a ring with it first |
| `Fliplist.TurnedLinked` | src/fliplist.c:249-257 | a turned ring is a ring |
| `FlipFile.LineEnds` | src/fliplist.c:346-391 | reading a line into the buffer stops behind its line feed |
| `FlipFile.LineIs` | src/fliplist.c:346-391 | any line is read up to its line feed, for 1023 characters or to the end of the file |
| `FlipFile.SavedText` | src/fliplist.c:309-344 | the text of a saved file to the character |
| `FlipFile.StrippedIs` | src/fliplist.c:401-406 | a line is stripped of the six white space characters of C, at its end only |
| `FlipFile.UnitLineIs` | src/fliplist.c:389-399 | which lines are unit lines |
| `FlipFile.ParseDecimal` | src/util.c:218-278 | the number a unit line is written with is read back |
| `FlipFile.ParseSigned` | src/util.c:218-278 | white space and a sign may come before a number |
| `FlipFile.NamesLoad` | src/fliplist.c:401-433 | the lines of a list, read one by one, put its images at the head in turn |
| `FlipFile.UnitsLoad` | src/fliplist.c:380-434 | reading the unit lines and lists of all drives up to the end of the text |
| `FlipFile.SaveLoadAll` | src/fliplist.c:309-443 | saving all drives and loading all of them gives every list back reversed, whatever was there before, and reports an error |
| `FlipFile.SaveLoadDrive` | src/fliplist.c:309-443 | one drive saved and loaded alone comes back reversed and the other lists stay |
| `FlipFile.SaveLoadTwice` | src/fliplist.c:309-443 | saving and loading all drives twice gives the lists of the beginning |
| `FlipFile.RestReports` | src/fliplist.c:380-389 | loading a text that ends in a line feed always reports an error; any other text whose lines fit the buffer is reported as loaded unless the source goes astray |
| `FlipFile.FlipLists.AddTo` | src/fliplist.c:413-432 | a new image becomes the head of one ring; the other three rings and their images stay |
| `FlipFile.FlipLists.ClearOne` | src/fliplist.c:291-307 | one ring is emptied and the others stay |
| `FlipFile.FlipLists.TakeLine` | src/fliplist.c:391-433 | one line: the unit it selects or the image it adds, or the place where the source would index outside its four lists or use a number it has not read |
| `FlipFile.FlipLists.LoadLists` | src/fliplist.c:346-453 | the loop over the lines leaves in the four rings what the loading function says, with the return value and current drive of the source, and changes nothing for a file that is no flip list |
| `FlipFile.FlipLists.WriteUnit` | src/fliplist.c:325-335 | the walk around a ring writes its images in order after the unit line |
| `FlipFile.FlipLists.SaveLists` | src/fliplist.c:309-344 | the text of one drive or of all of them; no file without an image |

## Left out

- Core6510.Step: requires that the opcode is not a JAM, because the macro that
  takes the fetch back (`REWIND_FETCH_OPCODE`) is different for each machine.
- Core6510.Execute: the invocation is not a JAM either, for the same reason.
- Core6510.Run: keeps the state it has where a JAM stands.
- CoreDtv.Step: no JAM, as for the other core, and the shadow registers of the
  C64DTV and its burst mode are not part of this model.
- CoreDtv.Execute: the invocation is not a JAM.
- CoreDtv.Run: keeps the state it has where a JAM stands.
- Interrupts, traps, DMA, the monitor, 8502 fetching and refresh, the conversion
  of BRK into a pending NMI, and the drive CPU's byte-ready line.
- Banking, I/O side effects of memory accesses and the interrupt-delay work of a
  clock tick: memory is plain RAM.
- AlarmDispatch.DispatchIsLegal: callbacks act on their own alarm only; arbitrary
  sets and unsets between dispatches are the actions of the runs in `AlarmRuns`.
- AlarmContexts.AlarmContext.DispatchDue: callbacks act on their own alarm only,
  as in `AlarmDispatch.DispatchIsLegal`.
- ClkGuard.GuardedClock.PreventOverflow: of the overflow callbacks only the warp
  of the alarm context, without the warp of the interrupt status.
- `alarm_destroy`, which is an unset followed by unlinking, and alarm names.
- GcrSectors.WriteThenRead: blocks that run over the track end and headers that
  do; there the write can destroy what the next search passes.
- GcrLayout.TrackIsMap: contents and headers that make an all-ones byte, and gaps
  that hold one, because the search takes such a byte for a sync mark.
- FindPath.Normalise: the branch for commands without a slash, which tries the
  directories of a search path; the current directory is absolute or empty.
- ColorAlloc.Allocator.AllocColors: the colour table conversion of the user
  interface (`uicolor_convert_color_table`) and the memory of the lists.
- Datasette.Tape.ReadBackward: the C16 half-wave formats and failing seeks; off
  the start of a record the window is not claimed to stay consistent.
- Datasette.Recorder.BitWrite: the cycle counter, failing writes and the halved
  time of the Plus/4; the C16 half-wave formats.
- EventLog.History.ReadModule: clocks less than a second below the largest value,
  and machine seconds of 1048575 cycles or more, as the Plus/4 has: there the next
  due time can wrap below the limit and the source's loop need not end; and
  initial events without data.
- EventLog.History.Record: the size stored for kinds without data, which callers
  pass as 0; playback, milestones and attached images.
- EventLog.StampedPlaced: for an overflow event, only timestamps below the
  guard's maximum; `EventLog.StampedStrict` has the time of the event itself.
- Cartconv.Converter.LoadAllBanks: the 64-byte cartridge header and the load
  address.
- EasyFlash.Cartridge.EasyflashCrtAttach: the 64-byte header, the export port and
  the I/O registers of the cartridge; flash commands at run time; raw binaries.
- GenericCart.GenericCrtAttach: the same, and copying the image to the ROM banks.
- The other savers of the cartridge converter, the Dela and Rex ones among them.
- FlipFile.FlipLists.LoadLists: attaching the head, showing the lists, unit numbers
  beyond a 64-bit long, and what happens after the source has gone astray.
- Crc32.Checksum.Crc32Buf: the upper half of the returned word, which the
  complement sets.
- Fixpoint.FixpointMultIsRounded: negating the most negative 32-bit number, which
  C leaves undefined, is taken to wrap.
- FlipFile.SaveLoadAll: names that a list file cannot hold: empty ones, those that
  start with "UNIT ", end in white space, contain a line feed or fill the buffer.
