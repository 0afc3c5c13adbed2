/**
 * The cycle-stepped core: every bus access is followed by exactly one tick of the clock, idle
 * reads included, and read-modify-write opcodes write the old value back before the new one.
 * `Switch` is the opcode switch as a table of macro invocations.
 */
module CoreDtv {
  import opened Isa
  import opened Machine
  import opened CoreCommon

  /** The GET_ and SET_ macros the switch passes to opcode macros. */
  datatype GetFunc =
    | GetImm | GetZero | GetZeroX | GetZeroY | GetAbs | GetAbsX | GetAbsY | GetIndX | GetIndY
    | GetAbsXRmw | GetAbsYRmw | GetIndYRmw

  datatype SetFunc = SetZeroP1 | SetZeroX | SetZeroY | SetAbs | SetAbsX | SetAbsY | SetIndX | SetIndY

  datatype SetRmwFunc = SetZeroRmw | SetZeroXRmw | SetAbsRmw | SetAbsXRmw | SetAbsYRmw | SetIndRmw

  /** One invocation in the switch. */
  datatype Case =
    | ReadCase(rop: ReadOp, rget: GetFunc, rpc: bv16)
    | SaveCase(sop: SaveOp, sset: SetFunc, spc: bv16)
    | ModifyCase(mop: ModifyOp, mpc: bv16, mget: GetFunc, mset: SetRmwFunc)
    | ShAbsI(aop: UnstableOp, indexX: bool)
    | ShaIndY
    | ImpliedCase(iop: ImpliedOp)
    | BranchCase(flag: bv8, sense: bool)
    | OtherCase(instr: Instr)

  function Switch0(op: bv8): Case {
    match op
    case 0x00 => OtherCase(BRK)
    case 0x01 => ReadCase(ORA, GetIndX, 2)
    case 0x02 => OtherCase(JAM)
    case 0x03 => ModifyCase(SLO, 2, GetIndX, SetIndRmw)
    case 0x04 => ReadCase(NOP, GetZero, 2)
    case 0x05 => ReadCase(ORA, GetZero, 2)
    case 0x06 => ModifyCase(ASL, 2, GetZero, SetZeroRmw)
    case 0x07 => ModifyCase(SLO, 2, GetZero, SetZeroRmw)
    case 0x08 => OtherCase(PHP)
    case 0x09 => ReadCase(ORA, GetImm, 2)
    case 0x0a => ImpliedCase(AslA)
    case 0x0b => ReadCase(ANC, GetImm, 2)
    case 0x0c => ReadCase(NOP, GetAbs, 3)
    case 0x0d => ReadCase(ORA, GetAbs, 3)
    case 0x0e => ModifyCase(ASL, 3, GetAbs, SetAbsRmw)
    case _ => ModifyCase(SLO, 3, GetAbs, SetAbsRmw)
  }

  function Switch1(op: bv8): Case {
    match op
    case 0x10 => BranchCase(0, false)
    case 0x11 => ReadCase(ORA, GetIndY, 2)
    case 0x12 => OtherCase(JAM)
    case 0x13 => ModifyCase(SLO, 2, GetIndYRmw, SetIndRmw)
    case 0x14 => ReadCase(NOP, GetZeroX, 2)
    case 0x15 => ReadCase(ORA, GetZeroX, 2)
    case 0x16 => ModifyCase(ASL, 2, GetZeroX, SetZeroXRmw)
    case 0x17 => ModifyCase(SLO, 2, GetZeroX, SetZeroXRmw)
    case 0x18 => ImpliedCase(CLC)
    case 0x19 => ReadCase(ORA, GetAbsY, 3)
    case 0x1a => ImpliedCase(NOP1)
    case 0x1b => ModifyCase(SLO, 3, GetAbsYRmw, SetAbsYRmw)
    case 0x1c => ReadCase(NOP, GetAbsX, 3)
    case 0x1d => ReadCase(ORA, GetAbsX, 3)
    case 0x1e => ModifyCase(ASL, 3, GetAbsXRmw, SetAbsXRmw)
    case _ => ModifyCase(SLO, 3, GetAbsXRmw, SetAbsXRmw)
  }

  function Switch2(op: bv8): Case {
    match op
    case 0x20 => OtherCase(JSR)
    case 0x21 => ReadCase(AND, GetIndX, 2)
    case 0x22 => OtherCase(JAM)
    case 0x23 => ModifyCase(RLA, 2, GetIndX, SetIndRmw)
    case 0x24 => ReadCase(BIT, GetZero, 2)
    case 0x25 => ReadCase(AND, GetZero, 2)
    case 0x26 => ModifyCase(ROL, 2, GetZero, SetZeroRmw)
    case 0x27 => ModifyCase(RLA, 2, GetZero, SetZeroRmw)
    case 0x28 => OtherCase(PLP)
    case 0x29 => ReadCase(AND, GetImm, 2)
    case 0x2a => ImpliedCase(RolA)
    case 0x2b => ReadCase(ANC, GetImm, 2)
    case 0x2c => ReadCase(BIT, GetAbs, 3)
    case 0x2d => ReadCase(AND, GetAbs, 3)
    case 0x2e => ModifyCase(ROL, 3, GetAbs, SetAbsRmw)
    case _ => ModifyCase(RLA, 3, GetAbs, SetAbsRmw)
  }

  function Switch3(op: bv8): Case {
    match op
    case 0x30 => BranchCase(0, true)
    case 0x31 => ReadCase(AND, GetIndY, 2)
    case 0x32 => OtherCase(JAM)
    case 0x33 => ModifyCase(RLA, 2, GetIndYRmw, SetIndRmw)
    case 0x34 => ReadCase(NOP, GetZeroX, 2)
    case 0x35 => ReadCase(AND, GetZeroX, 2)
    case 0x36 => ModifyCase(ROL, 2, GetZeroX, SetZeroXRmw)
    case 0x37 => ModifyCase(RLA, 2, GetZeroX, SetZeroXRmw)
    case 0x38 => ImpliedCase(SEC)
    case 0x39 => ReadCase(AND, GetAbsY, 3)
    case 0x3a => ImpliedCase(NOP1)
    case 0x3b => ModifyCase(RLA, 3, GetAbsYRmw, SetAbsYRmw)
    case 0x3c => ReadCase(NOP, GetAbsX, 3)
    case 0x3d => ReadCase(AND, GetAbsX, 3)
    case 0x3e => ModifyCase(ROL, 3, GetAbsXRmw, SetAbsXRmw)
    case _ => ModifyCase(RLA, 3, GetAbsXRmw, SetAbsXRmw)
  }

  function Switch4(op: bv8): Case {
    match op
    case 0x40 => OtherCase(RTI)
    case 0x41 => ReadCase(EOR, GetIndX, 2)
    case 0x42 => OtherCase(JAM)
    case 0x43 => ModifyCase(SRE, 2, GetIndX, SetIndRmw)
    case 0x44 => ReadCase(NOP, GetZero, 2)
    case 0x45 => ReadCase(EOR, GetZero, 2)
    case 0x46 => ModifyCase(LSR, 2, GetZero, SetZeroRmw)
    case 0x47 => ModifyCase(SRE, 2, GetZero, SetZeroRmw)
    case 0x48 => OtherCase(PHA)
    case 0x49 => ReadCase(EOR, GetImm, 2)
    case 0x4a => ImpliedCase(LsrA)
    case 0x4b => ReadCase(ASR, GetImm, 2)
    case 0x4c => OtherCase(JMP)
    case 0x4d => ReadCase(EOR, GetAbs, 3)
    case 0x4e => ModifyCase(LSR, 3, GetAbs, SetAbsRmw)
    case _ => ModifyCase(SRE, 3, GetAbs, SetAbsRmw)
  }

  function Switch5(op: bv8): Case {
    match op
    case 0x50 => BranchCase(1, false)
    case 0x51 => ReadCase(EOR, GetIndY, 2)
    case 0x52 => OtherCase(JAM)
    case 0x53 => ModifyCase(SRE, 2, GetIndYRmw, SetIndRmw)
    case 0x54 => ReadCase(NOP, GetZeroX, 2)
    case 0x55 => ReadCase(EOR, GetZeroX, 2)
    case 0x56 => ModifyCase(LSR, 2, GetZeroX, SetZeroXRmw)
    case 0x57 => ModifyCase(SRE, 2, GetZeroX, SetZeroXRmw)
    case 0x58 => ImpliedCase(CLI)
    case 0x59 => ReadCase(EOR, GetAbsY, 3)
    case 0x5a => ImpliedCase(NOP1)
    case 0x5b => ModifyCase(SRE, 3, GetAbsYRmw, SetAbsYRmw)
    case 0x5c => ReadCase(NOP, GetAbsX, 3)
    case 0x5d => ReadCase(EOR, GetAbsX, 3)
    case 0x5e => ModifyCase(LSR, 3, GetAbsXRmw, SetAbsXRmw)
    case _ => ModifyCase(SRE, 3, GetAbsXRmw, SetAbsXRmw)
  }

  function Switch6(op: bv8): Case {
    match op
    case 0x60 => OtherCase(RTS)
    case 0x61 => ReadCase(ADC, GetIndX, 2)
    case 0x62 => OtherCase(JAM)
    case 0x63 => ModifyCase(RRA, 2, GetIndX, SetIndRmw)
    case 0x64 => ReadCase(NOP, GetZero, 2)
    case 0x65 => ReadCase(ADC, GetZero, 2)
    case 0x66 => ModifyCase(ROR, 2, GetZero, SetZeroRmw)
    case 0x67 => ModifyCase(RRA, 2, GetZero, SetZeroRmw)
    case 0x68 => OtherCase(PLA)
    case 0x69 => ReadCase(ADC, GetImm, 2)
    case 0x6a => ImpliedCase(RorA)
    case 0x6b => ReadCase(ARR, GetImm, 2)
    case 0x6c => OtherCase(JMI)
    case 0x6d => ReadCase(ADC, GetAbs, 3)
    case 0x6e => ModifyCase(ROR, 3, GetAbs, SetAbsRmw)
    case _ => ModifyCase(RRA, 3, GetAbs, SetAbsRmw)
  }

  function Switch7(op: bv8): Case {
    match op
    case 0x70 => BranchCase(1, true)
    case 0x71 => ReadCase(ADC, GetIndY, 2)
    case 0x72 => OtherCase(JAM)
    case 0x73 => ModifyCase(RRA, 2, GetIndYRmw, SetIndRmw)
    case 0x74 => ReadCase(NOP, GetZeroX, 2)
    case 0x75 => ReadCase(ADC, GetZeroX, 2)
    case 0x76 => ModifyCase(ROR, 2, GetZeroX, SetZeroXRmw)
    case 0x77 => ModifyCase(RRA, 2, GetZeroX, SetZeroXRmw)
    case 0x78 => ImpliedCase(SEI)
    case 0x79 => ReadCase(ADC, GetAbsY, 3)
    case 0x7a => ImpliedCase(NOP1)
    case 0x7b => ModifyCase(RRA, 3, GetAbsYRmw, SetAbsYRmw)
    case 0x7c => ReadCase(NOP, GetAbsX, 3)
    case 0x7d => ReadCase(ADC, GetAbsX, 3)
    case 0x7e => ModifyCase(ROR, 3, GetAbsXRmw, SetAbsXRmw)
    case _ => ModifyCase(RRA, 3, GetAbsXRmw, SetAbsXRmw)
  }

  function Switch8(op: bv8): Case {
    match op
    case 0x80 | 0x82 | 0x89 => ReadCase(NOP, GetImm, 2)
    case 0x81 => SaveCase(STA, SetIndX, 2)
    case 0x83 => SaveCase(SAX, SetIndX, 2)
    case 0x84 => SaveCase(STY, SetZeroP1, 2)
    case 0x85 => SaveCase(STA, SetZeroP1, 2)
    case 0x86 => SaveCase(STX, SetZeroP1, 2)
    case 0x87 => SaveCase(SAX, SetZeroP1, 2)
    case 0x88 => ImpliedCase(DEY)
    case 0x8a => ImpliedCase(TXA)
    case 0x8b => ReadCase(ANE, GetImm, 2)
    case 0x8c => SaveCase(STY, SetAbs, 3)
    case 0x8d => SaveCase(STA, SetAbs, 3)
    case 0x8e => SaveCase(STX, SetAbs, 3)
    case _ => SaveCase(SAX, SetAbs, 3)
  }

  function Switch9(op: bv8): Case {
    match op
    case 0x90 => BranchCase(2, false)
    case 0x91 => SaveCase(STA, SetIndY, 2)
    case 0x92 => OtherCase(JAM)
    case 0x93 => ShaIndY
    case 0x94 => SaveCase(STY, SetZeroX, 2)
    case 0x95 => SaveCase(STA, SetZeroX, 2)
    case 0x96 => SaveCase(STX, SetZeroY, 2)
    case 0x97 => SaveCase(SAX, SetZeroY, 2)
    case 0x98 => ImpliedCase(TYA)
    case 0x99 => SaveCase(STA, SetAbsY, 3)
    case 0x9a => ImpliedCase(TXS)
    case 0x9b => ShAbsI(SHS, false)
    case 0x9c => ShAbsI(SHY, true)
    case 0x9d => SaveCase(STA, SetAbsX, 3)
    case 0x9e => ShAbsI(SHX, false)
    case _ => ShAbsI(SHA, false)
  }

  function SwitchA(op: bv8): Case {
    match op
    case 0xa0 => ReadCase(LDY, GetImm, 2)
    case 0xa1 => ReadCase(LDA, GetIndX, 2)
    case 0xa2 => ReadCase(LDX, GetImm, 2)
    case 0xa3 => ReadCase(LAX, GetIndX, 2)
    case 0xa4 => ReadCase(LDY, GetZero, 2)
    case 0xa5 => ReadCase(LDA, GetZero, 2)
    case 0xa6 => ReadCase(LDX, GetZero, 2)
    case 0xa7 => ReadCase(LAX, GetZero, 2)
    case 0xa8 => ImpliedCase(TAY)
    case 0xa9 => ReadCase(LDA, GetImm, 2)
    case 0xaa => ImpliedCase(TAX)
    case 0xab => ReadCase(LXA, GetImm, 2)
    case 0xac => ReadCase(LDY, GetAbs, 3)
    case 0xad => ReadCase(LDA, GetAbs, 3)
    case 0xae => ReadCase(LDX, GetAbs, 3)
    case _ => ReadCase(LAX, GetAbs, 3)
  }

  function SwitchB(op: bv8): Case {
    match op
    case 0xb0 => BranchCase(2, true)
    case 0xb1 => ReadCase(LDA, GetIndY, 2)
    case 0xb2 => OtherCase(JAM)
    case 0xb3 => ReadCase(LAX, GetIndY, 2)
    case 0xb4 => ReadCase(LDY, GetZeroX, 2)
    case 0xb5 => ReadCase(LDA, GetZeroX, 2)
    case 0xb6 => ReadCase(LDX, GetZeroY, 2)
    case 0xb7 => ReadCase(LAX, GetZeroY, 2)
    case 0xb8 => ImpliedCase(CLV)
    case 0xb9 => ReadCase(LDA, GetAbsY, 3)
    case 0xba => ImpliedCase(TSX)
    case 0xbb => ReadCase(LAS, GetAbsY, 3)
    case 0xbc => ReadCase(LDY, GetAbsX, 3)
    case 0xbd => ReadCase(LDA, GetAbsX, 3)
    case 0xbe => ReadCase(LDX, GetAbsY, 3)
    case _ => ReadCase(LAX, GetAbsY, 3)
  }

  function SwitchC(op: bv8): Case {
    match op
    case 0xc0 => ReadCase(CPY, GetImm, 2)
    case 0xc1 => ReadCase(CMP, GetIndX, 2)
    case 0xc2 => ReadCase(NOP, GetImm, 2)
    case 0xc3 => ModifyCase(DCP, 2, GetIndX, SetIndRmw)
    case 0xc4 => ReadCase(CPY, GetZero, 2)
    case 0xc5 => ReadCase(CMP, GetZero, 2)
    case 0xc6 => ModifyCase(DEC, 2, GetZero, SetZeroRmw)
    case 0xc7 => ModifyCase(DCP, 2, GetZero, SetZeroRmw)
    case 0xc8 => ImpliedCase(INY)
    case 0xc9 => ReadCase(CMP, GetImm, 2)
    case 0xca => ImpliedCase(DEX)
    case 0xcb => ReadCase(SBX, GetImm, 2)
    case 0xcc => ReadCase(CPY, GetAbs, 3)
    case 0xcd => ReadCase(CMP, GetAbs, 3)
    case 0xce => ModifyCase(DEC, 3, GetAbs, SetAbsRmw)
    case _ => ModifyCase(DCP, 3, GetAbs, SetAbsRmw)
  }

  function SwitchD(op: bv8): Case {
    match op
    case 0xd0 => BranchCase(3, false)
    case 0xd1 => ReadCase(CMP, GetIndY, 2)
    case 0xd2 => OtherCase(JAM)
    case 0xd3 => ModifyCase(DCP, 2, GetIndYRmw, SetIndRmw)
    case 0xd4 => ReadCase(NOP, GetZeroX, 2)
    case 0xd5 => ReadCase(CMP, GetZeroX, 2)
    case 0xd6 => ModifyCase(DEC, 2, GetZeroX, SetZeroXRmw)
    case 0xd7 => ModifyCase(DCP, 2, GetZeroX, SetZeroXRmw)
    case 0xd8 => ImpliedCase(CLD)
    case 0xd9 => ReadCase(CMP, GetAbsY, 3)
    case 0xda => ImpliedCase(NOP1)
    case 0xdb => ModifyCase(DCP, 3, GetAbsYRmw, SetAbsYRmw)
    case 0xdc => ReadCase(NOP, GetAbsX, 3)
    case 0xdd => ReadCase(CMP, GetAbsX, 3)
    case 0xde => ModifyCase(DEC, 3, GetAbsXRmw, SetAbsXRmw)
    case _ => ModifyCase(DCP, 3, GetAbsXRmw, SetAbsXRmw)
  }

  function SwitchE(op: bv8): Case {
    match op
    case 0xe0 => ReadCase(CPX, GetImm, 2)
    case 0xe1 => ReadCase(SBC, GetIndX, 2)
    case 0xe2 => ReadCase(NOP, GetImm, 2)
    case 0xe3 => ModifyCase(ISB, 2, GetIndX, SetIndRmw)
    case 0xe4 => ReadCase(CPX, GetZero, 2)
    case 0xe5 => ReadCase(SBC, GetZero, 2)
    case 0xe6 => ModifyCase(INC, 2, GetZero, SetZeroRmw)
    case 0xe7 => ModifyCase(ISB, 2, GetZero, SetZeroRmw)
    case 0xe8 => ImpliedCase(INX)
    case 0xe9 | 0xeb => ReadCase(SBC, GetImm, 2)
    case 0xea => ImpliedCase(NOP1)
    case 0xec => ReadCase(CPX, GetAbs, 3)
    case 0xed => ReadCase(SBC, GetAbs, 3)
    case 0xee => ModifyCase(INC, 3, GetAbs, SetAbsRmw)
    case _ => ModifyCase(ISB, 3, GetAbs, SetAbsRmw)
  }

  function SwitchF(op: bv8): Case {
    match op
    case 0xf0 => BranchCase(3, true)
    case 0xf1 => ReadCase(SBC, GetIndY, 2)
    case 0xf2 => OtherCase(JAM)
    case 0xf3 => ModifyCase(ISB, 2, GetIndYRmw, SetIndRmw)
    case 0xf4 => ReadCase(NOP, GetZeroX, 2)
    case 0xf5 => ReadCase(SBC, GetZeroX, 2)
    case 0xf6 => ModifyCase(INC, 2, GetZeroX, SetZeroXRmw)
    case 0xf7 => ModifyCase(ISB, 2, GetZeroX, SetZeroXRmw)
    case 0xf8 => ImpliedCase(SED)
    case 0xf9 => ReadCase(SBC, GetAbsY, 3)
    case 0xfa => ImpliedCase(NOP1)
    case 0xfb => ModifyCase(ISB, 3, GetAbsYRmw, SetAbsYRmw)
    case 0xfc => ReadCase(NOP, GetAbsX, 3)
    case 0xfd => ReadCase(SBC, GetAbsX, 3)
    case 0xfe => ModifyCase(INC, 3, GetAbsXRmw, SetAbsXRmw)
    case _ => ModifyCase(ISB, 3, GetAbsXRmw, SetAbsXRmw)
  }

  function Switch(op: bv8): Case {
    if op < 0x80 then
      if op < 0x40 then (if op < 0x20 then (if op < 0x10 then Switch0(op) else Switch1(op))
        else if op < 0x30 then Switch2(op) else Switch3(op))
      else (if op < 0x60 then (if op < 0x50 then Switch4(op) else Switch5(op))
        else if op < 0x70 then Switch6(op) else Switch7(op))
    else
      if op < 0xc0 then (if op < 0xa0 then (if op < 0x90 then Switch8(op) else Switch9(op))
        else if op < 0xb0 then SwitchA(op) else SwitchB(op))
      else (if op < 0xe0 then (if op < 0xd0 then SwitchC(op) else SwitchD(op))
        else if op < 0xf0 then SwitchE(op) else SwitchF(op))
  }

  // -------------------------------------------------------------------------
  // What an invocation means and how long it takes

  function GetMode(g: GetFunc): Mode {
    match g
    case GetImm => Imm
    case GetZero => Zp
    case GetZeroX => ZpX
    case GetZeroY => ZpY
    case GetAbs => Abs
    case GetAbsX => AbsX
    case GetAbsY => AbsY
    case GetIndX => IndX
    case GetIndY => IndY
    case GetAbsXRmw => AbsX
    case GetAbsYRmw => AbsY
    case GetIndYRmw => IndY
  }

  /** The ticks a GET_ macro takes. */
  function GetClk(g: GetFunc, crossed: bool): nat {
    match g
    case GetImm => 0
    case GetZero => 1
    case GetZeroX => 2
    case GetZeroY => 2
    case GetAbs => 1
    case GetAbsX => if crossed then 2 else 1
    case GetAbsY => if crossed then 2 else 1
    case GetIndX => 4
    case GetIndY => if crossed then 4 else 3
    case GetAbsXRmw => 2
    case GetAbsYRmw => 2
    case GetIndYRmw => 4
  }

  function SetMode(s: SetFunc): Mode {
    match s
    case SetZeroP1 => Zp
    case SetZeroX => ZpX
    case SetZeroY => ZpY
    case SetAbs => Abs
    case SetAbsX => AbsX
    case SetAbsY => AbsY
    case SetIndX => IndX
    case SetIndY => IndY
  }

  function SetClk(s: SetFunc): nat {
    match s
    case SetZeroP1 => 1
    case SetZeroX => 2
    case SetZeroY => 2
    case SetAbs => 1
    case SetAbsX => 2
    case SetAbsY => 2
    case SetIndX => 4
    case SetIndY => 4
  }

  /** The GET_ macro that leaves the address a SET_..._RMW macro writes to. */
  predicate Paired(g: GetFunc, s: SetRmwFunc) {
    match s
    case SetZeroRmw => g == GetZero
    case SetZeroXRmw => g == GetZeroX
    case SetAbsRmw => g == GetAbs
    case SetAbsXRmw => g == GetAbsXRmw
    case SetAbsYRmw => g == GetAbsYRmw
    case SetIndRmw => g == GetIndX || g == GetIndYRmw
  }

  function Meaning(c: Case): Instr {
    match c
    case ReadCase(op, g, _) => Read(op, GetMode(g))
    case SaveCase(op, s, _) => Save(op, SetMode(s))
    case ModifyCase(op, _, g, _) => Modify(op, GetMode(g))
    case ShAbsI(op, indexX) => Unstable(op, if indexX then AbsX else AbsY)
    case ShaIndY => Unstable(SHA, IndY)
    case ImpliedCase(op) => Implied(op)
    case BranchCase(flag, sense) => Branch(flag, sense)
    case OtherCase(instr) => instr
  }

  predicate Measured(c: Case, fetched: nat) {
    match c
    case ReadCase(op, g, pc) =>
      && pc == ModeLength(GetMode(g))
      && fetched + GetClk(g, false) == ReadCycles(GetMode(g), false)
      && fetched + GetClk(g, true) == ReadCycles(GetMode(g), true)
    case SaveCase(op, s, pc) => pc == ModeLength(SetMode(s)) && fetched + SetClk(s) == SaveCycles(SetMode(s))
    case ModifyCase(op, pc, g, s) =>
      && Paired(g, s) && pc == ModeLength(GetMode(g))
      && fetched + GetClk(g, true) + 2 == ModifyCycles(GetMode(g))
    case ShAbsI(op, indexX) => fetched == 3
    case OtherCase(instr) =>
      && !instr.Read? && !instr.Save? && !instr.Modify? && !instr.Unstable? && !instr.Implied? && !instr.Branch?
      && fetched == (if instr == JMP || instr == JMI then 3 else 2)
    case _ => fetched == 2
  }

  lemma Means0(op: bv8)
    requires 0x00 <= op <= 0x0f
    ensures Meaning(Switch0(op)) == Decode(op)
  {
  }

  lemma Measured0(op: bv8)
    requires 0x00 <= op <= 0x0f
    ensures Measured(Switch0(op), FetchCycles(op))
  {
  }

  lemma Means1(op: bv8)
    requires 0x10 <= op <= 0x1f
    ensures Meaning(Switch1(op)) == Decode(op)
  {
  }

  lemma Measured1(op: bv8)
    requires 0x10 <= op <= 0x1f
    ensures Measured(Switch1(op), FetchCycles(op))
  {
  }

  lemma Means2(op: bv8)
    requires 0x20 <= op <= 0x2f
    ensures Meaning(Switch2(op)) == Decode(op)
  {
  }

  lemma Measured2(op: bv8)
    requires 0x20 <= op <= 0x2f
    ensures Measured(Switch2(op), FetchCycles(op))
  {
  }

  lemma Means3(op: bv8)
    requires 0x30 <= op <= 0x3f
    ensures Meaning(Switch3(op)) == Decode(op)
  {
  }

  lemma Measured3(op: bv8)
    requires 0x30 <= op <= 0x3f
    ensures Measured(Switch3(op), FetchCycles(op))
  {
  }

  lemma Means4(op: bv8)
    requires 0x40 <= op <= 0x4f
    ensures Meaning(Switch4(op)) == Decode(op)
  {
  }

  lemma Measured4(op: bv8)
    requires 0x40 <= op <= 0x4f
    ensures Measured(Switch4(op), FetchCycles(op))
  {
  }

  lemma Means5(op: bv8)
    requires 0x50 <= op <= 0x5f
    ensures Meaning(Switch5(op)) == Decode(op)
  {
  }

  lemma Measured5(op: bv8)
    requires 0x50 <= op <= 0x5f
    ensures Measured(Switch5(op), FetchCycles(op))
  {
  }

  lemma Means6(op: bv8)
    requires 0x60 <= op <= 0x6f
    ensures Meaning(Switch6(op)) == Decode(op)
  {
  }

  lemma Measured6(op: bv8)
    requires 0x60 <= op <= 0x6f
    ensures Measured(Switch6(op), FetchCycles(op))
  {
  }

  lemma Means7(op: bv8)
    requires 0x70 <= op <= 0x7f
    ensures Meaning(Switch7(op)) == Decode(op)
  {
  }

  lemma Measured7(op: bv8)
    requires 0x70 <= op <= 0x7f
    ensures Measured(Switch7(op), FetchCycles(op))
  {
  }

  lemma Means8(op: bv8)
    requires 0x80 <= op <= 0x8f
    ensures Meaning(Switch8(op)) == Decode(op)
  {
  }

  lemma Measured8(op: bv8)
    requires 0x80 <= op <= 0x8f
    ensures Measured(Switch8(op), FetchCycles(op))
  {
  }

  lemma Means9(op: bv8)
    requires 0x90 <= op <= 0x9f
    ensures Meaning(Switch9(op)) == Decode(op)
  {
  }

  lemma Measured9(op: bv8)
    requires 0x90 <= op <= 0x9f
    ensures Measured(Switch9(op), FetchCycles(op))
  {
  }

  lemma MeansA(op: bv8)
    requires 0xa0 <= op <= 0xaf
    ensures Meaning(SwitchA(op)) == Decode(op)
  {
  }

  lemma MeasuredA(op: bv8)
    requires 0xa0 <= op <= 0xaf
    ensures Measured(SwitchA(op), FetchCycles(op))
  {
  }

  lemma MeansB(op: bv8)
    requires 0xb0 <= op <= 0xbf
    ensures Meaning(SwitchB(op)) == Decode(op)
  {
  }

  lemma MeasuredB(op: bv8)
    requires 0xb0 <= op <= 0xbf
    ensures Measured(SwitchB(op), FetchCycles(op))
  {
  }

  lemma MeansC(op: bv8)
    requires 0xc0 <= op <= 0xcf
    ensures Meaning(SwitchC(op)) == Decode(op)
  {
  }

  lemma MeasuredC(op: bv8)
    requires 0xc0 <= op <= 0xcf
    ensures Measured(SwitchC(op), FetchCycles(op))
  {
  }

  lemma MeansD(op: bv8)
    requires 0xd0 <= op <= 0xdf
    ensures Meaning(SwitchD(op)) == Decode(op)
  {
  }

  lemma MeasuredD(op: bv8)
    requires 0xd0 <= op <= 0xdf
    ensures Measured(SwitchD(op), FetchCycles(op))
  {
  }

  lemma MeansE(op: bv8)
    requires 0xe0 <= op <= 0xef
    ensures Meaning(SwitchE(op)) == Decode(op)
  {
  }

  lemma MeasuredE(op: bv8)
    requires 0xe0 <= op <= 0xef
    ensures Measured(SwitchE(op), FetchCycles(op))
  {
  }

  lemma MeansF(op: bv8)
    requires 0xf0 <= op <= 0xff
    ensures Meaning(SwitchF(op)) == Decode(op)
  {
  }

  lemma MeasuredF(op: bv8)
    requires 0xf0 <= op <= 0xff
    ensures Measured(SwitchF(op), FetchCycles(op))
  {
  }

  lemma SwitchAgrees(op: bv8)
    ensures Meaning(Switch(op)) == Decode(op) && Measured(Switch(op), FetchCycles(op))
  {
    hide Meaning, Measured, Decode, FetchCycles;
    if op < 0x80 {
      if op < 0x40 {
        if op < 0x20 {
          if op < 0x10 {
            Means0(op);
            Measured0(op);
          } else {
            Means1(op);
            Measured1(op);
          }
        } else {
          if op < 0x30 {
            Means2(op);
            Measured2(op);
          } else {
            Means3(op);
            Measured3(op);
          }
        }
      } else {
        if op < 0x60 {
          if op < 0x50 {
            Means4(op);
            Measured4(op);
          } else {
            Means5(op);
            Measured5(op);
          }
        } else {
          if op < 0x70 {
            Means6(op);
            Measured6(op);
          } else {
            Means7(op);
            Measured7(op);
          }
        }
      }
    } else {
      if op < 0xc0 {
        if op < 0xa0 {
          if op < 0x90 {
            Means8(op);
            Measured8(op);
          } else {
            Means9(op);
            Measured9(op);
          }
        } else {
          if op < 0xb0 {
            MeansA(op);
            MeasuredA(op);
          } else {
            MeansB(op);
            MeasuredB(op);
          }
        }
      } else {
        if op < 0xe0 {
          if op < 0xd0 {
            MeansC(op);
            MeasuredC(op);
          } else {
            MeansD(op);
            MeasuredD(op);
          }
        } else {
          if op < 0xf0 {
            MeansE(op);
            MeasuredE(op);
          } else {
            MeansF(op);
            MeasuredF(op);
          }
        }
      }
    }
  }

  // -------------------------------------------------------------------------
  // One bus access and its tick: LOAD, STORE, PUSH, PULL, each followed by CLK_INC

  /** The clock has ticked once for every bus access. */
  twostate predicate InStep(m: Cpu)
    reads m
  {
    m.clk - m.bus == old(m.clk - m.bus)
  }

  method LoadInc(m: Cpu, addr: bv16) returns (v: bv8)
    requires m.ram.Length == 0x10000
    modifies m`bus, m`clk
    ensures v == Peek(m.Mem(), addr) && m.clk == old(m.clk) + 1 && InStep(m)
  {
    v := m.Load(addr);
    m.clk := m.clk + 1;
  }

  method LoadZeroInc(m: Cpu, addr: bv16) returns (v: bv8)
    requires m.ram.Length == 0x10000
    modifies m`bus, m`clk
    ensures v == Peek(m.Mem(), addr & 0xff) && m.clk == old(m.clk) + 1 && InStep(m)
  {
    v := m.LoadZero(addr);
    m.clk := m.clk + 1;
  }

  method StoreInc(m: Cpu, addr: bv16, value: bv8)
    requires m.ram.Length == 0x10000
    modifies m`bus, m`clk, m.ram
    ensures m.Mem() == Poke(old(m.Mem()), addr, value) && m.clk == old(m.clk) + 1 && InStep(m)
  {
    m.Store(addr, value);
    m.clk := m.clk + 1;
  }

  method StoreZeroInc(m: Cpu, addr: bv16, value: bv8)
    requires m.ram.Length == 0x10000
    modifies m`bus, m`clk, m.ram
    ensures m.Mem() == Poke(old(m.Mem()), addr & 0xff, value) && m.clk == old(m.clk) + 1 && InStep(m)
  {
    m.StoreZero(addr, value);
    m.clk := m.clk + 1;
  }

  method PushInc(m: Cpu, value: bv8)
    requires m.ram.Length == 0x10000
    modifies m`bus, m`clk, m`l, m.ram
    ensures m.Mem() == Push(old(m.Mem()), old(m.l.sp), value) && m.l == old(m.l).(sp := Down(old(m.l.sp)))
    ensures m.clk == old(m.clk) + 1 && InStep(m)
  {
    hide Push, Down;
    m.PushByte(value);
    m.clk := m.clk + 1;
  }

  method PullInc(m: Cpu) returns (v: bv8)
    requires m.ram.Length == 0x10000
    modifies m`bus, m`clk, m`l
    ensures v == Peek(m.Mem(), StackAddr(Up(old(m.l.sp)))) && m.l == old(m.l).(sp := Up(old(m.l.sp)))
    ensures m.clk == old(m.clk) + 1 && InStep(m)
  {
    hide StackAddr, Up, Peek;
    v := m.PullByte();
    m.clk := m.clk + 1;
  }

  /** STACK_PEEK: an idle read of the stack. */
  method StackPeek(m: Cpu)
    requires m.ram.Length == 0x10000
    modifies m`bus, m`clk
    ensures m.clk == old(m.clk) + 1 && InStep(m)
  {
    var dummy := LoadInc(m, StackAddr(m.l.sp));
  }

  // -------------------------------------------------------------------------
  // Addressing macros

  /** INT_ABS_I_R: the idle read on a page crossing. */
  method IntAbsIR(m: Cpu, addr: bv16, index: bv8)
    requires m.ram.Length == 0x10000
    modifies m`bus, m`clk
    ensures m.clk == old(m.clk) + (if SamePage(addr, Indexed(addr, index)) then 0 else 1) && InStep(m)
  {
    hide SamePage, Indexed;
    PageCross(addr, index);
    if addr & 0xff + index as bv16 > 0xff {
      var dummy := LoadInc(m, (Indexed(addr, index) & 0xff) | (addr & 0xff00));
    }
  }

  /** INT_ABS_I_W: the idle read that stores and read-modify-write opcodes always make. */
  method IntAbsIW(m: Cpu, addr: bv16, index: bv8)
    requires m.ram.Length == 0x10000
    modifies m`bus, m`clk
    ensures m.clk == old(m.clk) + 1 && InStep(m)
  {
    var dummy := LoadInc(m, (Indexed(addr, index) & 0xff) | (addr & 0xff00));
  }

  /** INT_IND_X: an idle read of the operand address, then the pointer. */
  method IntIndX(m: Cpu, p1: bv8) returns (addr: bv16)
    requires m.ram.Length == 0x10000
    modifies m`bus, m`clk
    ensures addr == ZWord(m.Mem(), ZeroIndexed(p1, m.l.x)) && m.clk == old(m.clk) + 3 && InStep(m)
  {
    hide Peek, ZeroIndexed, Indexed, Word;
    var dummy := LoadZeroInc(m, p1 as bv16);
    ZeroWrap(p1, m.l.x);
    ZeroTwice(ZeroIndexed(p1, m.l.x), Indexed(p1 as bv16, m.l.x));
    var tmpa := Indexed(p1 as bv16, m.l.x) & 0xff;
    var lo := LoadZeroInc(m, tmpa);
    tmpa := (tmpa + 1) & 0xff;
    var hi := LoadZeroInc(m, tmpa);
    addr := Word(lo, hi);
  }

  lemma ZeroTwice(z: bv16, wide: bv16)
    requires z == wide & 0xff
    ensures z & 0xff == z && (z + 1) & 0xff & 0xff == (z + 1) & 0xff
  {
  }

  /** The pointer fetch of INT_IND_Y_R and INT_IND_Y_W. */
  method IntIndYPointer(m: Cpu, p1: bv8) returns (tmpa: bv16)
    requires m.ram.Length == 0x10000
    modifies m`bus, m`clk
    ensures tmpa == ZWord(m.Mem(), p1 as bv16) && m.clk == old(m.clk) + 2 && InStep(m)
  {
    hide Peek, Word;
    ZeroPlain(p1);
    var lo := LoadZeroInc(m, p1 as bv16);
    var hi := LoadZeroInc(m, p1 as bv16 + 1);
    tmpa := Word(lo, hi);
  }

  method GetZeroPage(m: Cpu, g: GetFunc, p1: bv8, p2: bv16) returns (v: bv8)
    requires m.ram.Length == 0x10000 && (g == GetZero || g == GetZeroX || g == GetZeroY)
    modifies m`bus, m`clk
    ensures v == OperandValue(GetMode(g), R(m.l), p1, p2, m.Mem())
    ensures m.clk == old(m.clk) + GetClk(g, false) && InStep(m)
  {
    hide F, Peek, ZeroIndexed, Indexed;
    ZeroPlain(p1);
    ZeroWrap(p1, m.l.x);
    ZeroWrap(p1, m.l.y);
    if g == GetZero {
      v := LoadZeroInc(m, p1 as bv16);
    } else {
      var dummy := LoadZeroInc(m, p1 as bv16);
      if g == GetZeroX {
        v := LoadZeroInc(m, Indexed(p1 as bv16, m.l.x));
      } else {
        v := LoadZeroInc(m, Indexed(p1 as bv16, m.l.y));
      }
    }
  }

  method GetAbsolute(m: Cpu, g: GetFunc, p1: bv8, p2: bv16) returns (v: bv8)
    requires m.ram.Length == 0x10000
    requires g == GetAbs || g == GetAbsX || g == GetAbsY || g == GetAbsXRmw || g == GetAbsYRmw
    modifies m`bus, m`clk
    ensures v == OperandValue(GetMode(g), R(m.l), p1, p2, m.Mem())
    ensures m.clk == old(m.clk) + GetClk(g, Crossed(GetMode(g), R(m.l), p1, p2, m.Mem())) && InStep(m)
  {
    hide F, Peek, SamePage, Indexed, ZWord;
    match g
    case GetAbs => v := LoadInc(m, p2);
    case GetAbsX => IntAbsIR(m, p2, m.l.x); v := LoadInc(m, Indexed(p2, m.l.x));
    case GetAbsY => IntAbsIR(m, p2, m.l.y); v := LoadInc(m, Indexed(p2, m.l.y));
    case GetAbsXRmw => IntAbsIW(m, p2, m.l.x); v := LoadInc(m, Indexed(p2, m.l.x));
    case GetAbsYRmw => IntAbsIW(m, p2, m.l.y); v := LoadInc(m, Indexed(p2, m.l.y));
  }

  method GetIndirect(m: Cpu, g: GetFunc, p1: bv8, p2: bv16) returns (v: bv8, addr: bv16)
    requires m.ram.Length == 0x10000 && (g == GetIndX || g == GetIndY || g == GetIndYRmw)
    modifies m`bus, m`clk
    ensures addr == Ea(GetMode(g), R(m.l), p1, p2, m.Mem()) && v == OperandValue(GetMode(g), R(m.l), p1, p2, m.Mem())
    ensures m.clk == old(m.clk) + GetClk(g, Crossed(GetMode(g), R(m.l), p1, p2, m.Mem())) && InStep(m)
  {
    hide F, Peek, SamePage, Indexed, ZWord, ZeroIndexed;
    match g {
      case GetIndX =>
        addr := IntIndX(m, p1);
      case GetIndY =>
        var tmpa := IntIndYPointer(m, p1);
        IntAbsIR(m, tmpa, m.l.y);
        addr := Indexed(tmpa, m.l.y);
      case GetIndYRmw =>
        var tmpa := IntIndYPointer(m, p1);
        IntAbsIW(m, tmpa, m.l.y);
        addr := Indexed(tmpa, m.l.y);
    }
    v := LoadInc(m, addr);
  }

  /** A GET_ macro; `addr` is what the indirect ones leave for a SET_IND_RMW. */
  method Get(m: Cpu, g: GetFunc, p1: bv8, p2: bv16) returns (v: bv8, addr: bv16)
    requires m.ram.Length == 0x10000
    modifies m`bus, m`clk
    ensures v == OperandValue(GetMode(g), R(m.l), p1, p2, m.Mem())
    ensures g == GetIndX || g == GetIndY || g == GetIndYRmw ==> addr == Ea(GetMode(g), R(m.l), p1, p2, m.Mem())
    ensures m.clk == old(m.clk) + GetClk(g, Crossed(GetMode(g), R(m.l), p1, p2, m.Mem())) && InStep(m)
  {
    hide F, R, Peek, Ea, Crossed;
    addr := 0;
    match g
    case GetImm => v := p1;
    case GetZero | GetZeroX | GetZeroY => v := GetZeroPage(m, g, p1, p2);
    case GetIndX | GetIndY | GetIndYRmw => v, addr := GetIndirect(m, g, p1, p2);
    case _ => v := GetAbsolute(m, g, p1, p2);
  }

  /** A SET_ macro. */
  method Set(m: Cpu, s: SetFunc, value: bv8, p1: bv8, p2: bv16)
    requires m.ram.Length == 0x10000
    modifies m`bus, m`clk, m.ram
    ensures m.Mem() == Poke(old(m.Mem()), Ea(SetMode(s), R(m.l), p1, p2, old(m.Mem())), value)
    ensures m.clk == old(m.clk) + SetClk(s) && InStep(m)
  {
    hide F, Peek, Poke, Indexed, ZWord, ZeroIndexed;
    match s
    case SetZeroP1 => ZeroPlain(p1); StoreZeroInc(m, p1 as bv16, value);
    case SetZeroX =>
      ZeroWrap(p1, m.l.x);
      var dummy := LoadZeroInc(m, p1 as bv16);
      StoreZeroInc(m, Indexed(p1 as bv16, m.l.x), value);
    case SetZeroY =>
      ZeroWrap(p1, m.l.y);
      var dummy := LoadZeroInc(m, p1 as bv16);
      StoreZeroInc(m, Indexed(p1 as bv16, m.l.y), value);
    case SetAbs => StoreInc(m, p2, value);
    case SetAbsX => IntAbsIW(m, p2, m.l.x); StoreInc(m, Indexed(p2, m.l.x), value);
    case SetAbsY => IntAbsIW(m, p2, m.l.y); StoreInc(m, Indexed(p2, m.l.y), value);
    case SetIndX =>
      var addr := IntIndX(m, p1);
      StoreInc(m, addr, value);
    case SetIndY =>
      var tmpa := IntIndYPointer(m, p1);
      IntAbsIW(m, tmpa, m.l.y);
      StoreInc(m, Indexed(tmpa, m.l.y), value);
  }

  function RmwTarget(s: SetRmwFunc, addr: bv16, l: Locals, p1: bv8, p2: bv16): bv16 {
    match s
    case SetZeroRmw => p1 as bv16 & 0xff
    case SetZeroXRmw => Indexed(p1 as bv16, l.x) & 0xff
    case SetAbsRmw => p2
    case SetAbsXRmw => Indexed(p2, l.x)
    case SetAbsYRmw => Indexed(p2, l.y)
    case SetIndRmw => addr
  }

  /** A SET_..._RMW macro: the old value goes back first, a cycle before the new one. */
  method SetRmw(m: Cpu, s: SetRmwFunc, addr: bv16, oldValue: bv8, newValue: bv8, p1: bv8, p2: bv16)
    requires m.ram.Length == 0x10000
    modifies m`bus, m`clk, m.ram
    ensures m.Mem() == Poke(old(m.Mem()), RmwTarget(s, addr, m.l, p1, p2), newValue)
    ensures m.clk == old(m.clk) + 2 && InStep(m)
  {
    hide Poke, RmwTarget;
    var target := RmwTarget(s, addr, m.l, p1, p2);
    StoreInc(m, target, oldValue);
    StoreInc(m, target, newValue);
    LastPokeWins(old(m.Mem()), target, oldValue, newValue);
  }

  lemma LastPokeWins(m: Ram, addr: bv16, v: bv8, w: bv8)
    ensures Poke(Poke(m, addr, v), addr, w) == Poke(m, addr, w)
  {
  }

  lemma PairedTarget(g: GetFunc, s: SetRmwFunc, addr: bv16, l: Locals, p1: bv8, p2: bv16, m: Ram)
    requires Paired(g, s)
    requires g == GetIndX || g == GetIndY || g == GetIndYRmw ==> addr == Ea(GetMode(g), R(l), p1, p2, m)
    ensures RmwTarget(s, addr, l, p1, p2) == Ea(GetMode(g), R(l), p1, p2, m) && GetMode(g) != Imm
  {
    hide F, Indexed, ZeroIndexed, ZWord;
    ZeroPlain(p1);
    ZeroWrap(p1, l.x);
  }

  // -------------------------------------------------------------------------
  // Opcodes with an operand

  method ReadMacro(m: Cpu, op: ReadOp, g: GetFunc, pcInc: bv16, p1: bv8, p2: bv16)
    requires m.ram.Length == 0x10000
    modifies m`l, m`bus, m`clk, m`pc
    ensures R(m.l) == ReadEffect(op, R(old(m.l)), OperandValue(GetMode(g), R(old(m.l)), p1, p2, m.Mem()))
    ensures m.pc == Advance(old(m.pc), pcInc)
    ensures m.clk == old(m.clk) + GetClk(g, Crossed(GetMode(g), R(old(m.l)), p1, p2, m.Mem())) && InStep(m)
  {
    hide F, R, ReadEffect, OperandValue, Crossed, GetClk, GetMode, Advance;
    var v, addr := Get(m, g, p1, p2);
    m.l := ReadBody(op, m.l, v);
    m.pc := Advance(m.pc, pcInc);
  }

  method SaveMacro(m: Cpu, op: SaveOp, s: SetFunc, pcInc: bv16, p1: bv8, p2: bv16)
    requires m.ram.Length == 0x10000
    modifies m`bus, m`clk, m`pc, m.ram
    ensures m.Mem() == Poke(old(m.Mem()), Ea(SetMode(s), R(m.l), p1, p2, old(m.Mem())), Saved(op, R(m.l)))
    ensures m.pc == Advance(old(m.pc), pcInc) && m.clk == old(m.clk) + SetClk(s) && InStep(m)
  {
    hide F, R, Ea, Poke, Saved, SetClk, SetMode, Advance;
    m.pc := Advance(m.pc, pcInc);
    Set(m, s, SavedRegister(op, m.l), p1, p2);
  }

  /** The bodies that keep the shifted value in a wide integer before it is stored as a byte. */
  method SloRlaSreRra(op: ModifyOp, l: Locals, value: bv8) returns (r: Locals, tmp: bv16)
    requires op == SLO || op == RLA || op == SRE || op == RRA
    ensures Result(Lo(tmp), R(r)) == ModifyEffect(op, R(l), value)
  {
    hide F, Neg, Rotated, Bit, Lo, ReadEffect, ShiftedRegs;
    match op
    case SLO =>
      tmp := ShiftLeft(value);
      TopBit(value);
      r := Combine(ORA, l, Lo(tmp), value & 0x80 != 0);
    case RLA =>
      tmp := RotateLeft(value, CarrySet(l.st));
      r := Combine(AND, l, Lo(tmp), tmp & 0x100 != 0);
    case SRE =>
      LoOfByte(value >> 1);
      tmp := (value >> 1) as bv16;
      r := Combine(EOR, l, Lo(tmp), value & 0x01 != 0);
    case RRA =>
      // new_value |= 0x100 when the carry is set, then >>= 1
      var q := RotateRight(value, CarrySet(l.st));
      LoOfByte(q);
      tmp := q as bv16;
      r := Combine(ADC, l, Lo(tmp), value & 0x01 != 0);
  }

  /** Nine bits of `value << 1`. */
  method ShiftLeft(value: bv8) returns (tmp: bv16)
    ensures Lo(tmp) == value << 1
  {
    tmp := (value as bv16) << 1;
  }

  method DcpIsb(op: ModifyOp, l: Locals, value: bv8) returns (r: Locals, tmp: bv16)
    requires op == DCP || op == ISB
    ensures Result(Lo(tmp), R(r)) == ModifyEffect(op, R(l), value)
  {
    hide F, Neg, Lo, ReadEffect, ShiftedRegs;
    match op
    case DCP =>
      LoOfByte(value - 1);
      tmp := (value - 1) as bv16;
      r := CombineCount(CMP, l, value - 1);
    case ISB =>
      LoOfByte(value + 1);
      tmp := (value + 1) as bv16;
      r := CombineCount(SBC, l, value + 1);
  }

  method ModifyBody(op: ModifyOp, l: Locals, value: bv8) returns (r: Locals, tmp: bv16)
    ensures Result(Lo(tmp), R(r)) == ModifyEffect(op, R(l), value)
  {
    hide F, R, Lo, ShiftEffect, Then;
    match op
    case SLO | RLA | SRE | RRA => r, tmp := SloRlaSreRra(op, l, value);
    case DCP | ISB => r, tmp := DcpIsb(op, l, value);
    case _ => r, tmp := ShiftBody(op, l, value);
  }

  method ModifyMacro(m: Cpu, op: ModifyOp, pcInc: bv16, g: GetFunc, s: SetRmwFunc, p1: bv8, p2: bv16)
    requires m.ram.Length == 0x10000 && Paired(g, s)
    modifies m`l, m`bus, m`clk, m`pc, m.ram
    ensures var ea := Ea(GetMode(g), R(old(m.l)), p1, p2, old(m.Mem()));
            var e := ModifyEffect(op, R(old(m.l)), Peek(old(m.Mem()), ea));
            R(m.l) == e.regs && m.Mem() == Poke(old(m.Mem()), ea, e.value)
    ensures m.pc == Advance(old(m.pc), pcInc) && InStep(m)
    ensures m.clk == old(m.clk) + GetClk(g, Crossed(GetMode(g), R(old(m.l)), p1, p2, old(m.Mem()))) + 2
  {
    hide F, R, Ea, Peek, Poke, Advance, ModifyEffect, Lo, RmwTarget, Crossed, GetClk, GetMode;
    var oldValue, addr := Get(m, g, p1, p2);
    PairedTarget(g, s, addr, m.l, p1, p2, m.Mem());
    var r, tmp := ModifyBody(op, m.l, oldValue);
    SameIndex(op, m.l, oldValue, r);
    SameTarget(s, addr, m.l, r, p1, p2);
    m.l := r;
    m.pc := Advance(m.pc, pcInc);
    SetRmw(m, s, addr, oldValue, Lo(tmp), p1, p2);
  }

  lemma SameTarget(s: SetRmwFunc, addr: bv16, l: Locals, r: Locals, p1: bv8, p2: bv16)
    requires r.x == l.x && r.y == l.y
    ensures RmwTarget(s, addr, l, p1, p2) == RmwTarget(s, addr, r, p1, p2)
  {
  }

  /** SH_ABS_I and SHS_ABS_Y. */
  method ShAbs(m: Cpu, op: UnstableOp, mode: Mode, index: bv8, p1: bv8, p2: bv16, ghost s: State)
    requires m.ram.Length == 0x10000 && s == m.St().(clk := s.clk) && m.clk == s.clk + 3
    requires (mode == AbsX && index == m.l.x) || (mode == AbsY && index == m.l.y)
    modifies m`l, m`bus, m`clk, m`pc, m.ram
    ensures m.St() == ExecUnstable(op, mode, p1, p2, s) && InStep(m)
  {
    ShAbsStore(m, op, mode, index, p1, p2, s);
    hide Poke, UnstableValue, UnstableSource, F, Ea, Crossed;
    if op == SHS {
      m.l := m.l.(sp := m.l.a & m.l.x);
    }
  }

  /** The store itself. */
  method ShAbsStore(m: Cpu, op: UnstableOp, mode: Mode, index: bv8, p1: bv8, p2: bv16, ghost s: State)
    requires m.ram.Length == 0x10000 && s == m.St().(clk := s.clk) && m.clk == s.clk + 3
    requires (mode == AbsX && index == m.l.x) || (mode == AbsY && index == m.l.y)
    modifies m`bus, m`clk, m`pc, m.ram
    ensures m.St() == ExecUnstable(op, mode, p1, p2, s).(r := s.r) && InStep(m)
  {
    UnstableAbs(op, mode, p1, p2, s);
    hide ExecUnstable;
    hide Poke, Indexed, SamePage, Lo, Word, UnstableValue, Advance, F, UnstableSource, UnstableRegister;
    IntAbsIW(m, p2, index);
    StoreSh(m, p2, index, UnstableRegister(op, m.l), Indexed(p2, index));
    m.clk := m.clk + 1;
    m.pc := Advance(m.pc, 3);
  }

  method ShAbsMacro(m: Cpu, op: UnstableOp, indexX: bool, p1: bv8, p2: bv16, ghost s: State)
    requires m.ram.Length == 0x10000 && s == m.St().(clk := s.clk) && m.clk == s.clk + 3
    modifies m`l, m`bus, m`clk, m`pc, m.ram
    ensures m.St() == ExecUnstable(op, if indexX then AbsX else AbsY, p1, p2, s) && InStep(m)
  {
    hide ExecUnstable;
    if indexX {
      ShAbs(m, op, AbsX, m.l.x, p1, p2, s);
    } else {
      ShAbs(m, op, AbsY, m.l.y, p1, p2, s);
    }
  }

  method ShaIndYMacro(m: Cpu, p1: bv8, p2: bv16, ghost s: State)
    requires m.ram.Length == 0x10000 && s == m.St().(clk := s.clk) && m.clk == s.clk + 2
    modifies m`l, m`bus, m`clk, m`pc, m.ram
    ensures m.St() == ExecUnstable(SHA, IndY, p1, p2, s) && InStep(m)
  {
    hide Poke, Indexed, SamePage, Lo, Word, UnstableValue, Advance, F, ZWord, UnstableSource, UnstableRegister;
    var tmpa := IntIndYPointer(m, p1);
    IntAbsIW(m, tmpa, m.l.y);
    m.pc := Advance(m.pc, 2);
    StoreSh(m, tmpa, m.l.y, UnstableRegister(SHA, m.l), tmpa);
    m.clk := m.clk + 1;
  }

  // -------------------------------------------------------------------------
  // Branches, jumps and the stack

  method BranchMacro(m: Cpu, flag: bv8, sense: bool, p1: bv8, ghost s: State)
    requires m.ram.Length == 0x10000 && s == m.St().(clk := s.clk) && m.clk == s.clk + 2
    modifies m`bus, m`clk, m`pc
    ensures m.St() == ExecBranch(Taken(flag, sense, s.r.f), p1, s) && InStep(m)
  {
    hide Advance, F, Taken, SamePage, SignExtend, SignedChar;
    var cond := BranchCondition(flag, sense, m.l.st);
    m.pc := Advance(m.pc, 2);
    if cond {
      SignedCharExtends(p1);
      var dest := Advance(m.pc, SignedChar(p1));
      BranchPage(m.pc, dest);
      var dummy := LoadInc(m, m.pc);
      if (m.pc ^ dest) & 0xff00 != 0 {
        dummy := LoadInc(m, (m.pc & 0xff00) | (dest & 0xff));
      }
      m.pc := dest;
    }
  }

  method PushPullMacro(m: Cpu, i: Instr, ghost s: State)
    requires m.ram.Length == 0x10000 && s == m.St().(clk := s.clk) && m.clk == s.clk + 2
    requires i == PHA || i == PHP || i == PLA || i == PLP
    modifies m`l, m`bus, m`clk, m`pc, m.ram
    ensures m.St() == ExecStack(i, s) && InStep(m)
  {
    hide Advance, F, StatusByte, StatusFlags, Push, Peek, StackAddr, Up, Down, WithNZ;
    match i {
      case PHA =>
        PushInc(m, m.l.a);
      case PHP =>
        var p := LocalStatus(m.l.st);
        StatusWithBreak(F(m.l.st));
        PushInc(m, p | P_BREAK);
      case PLA =>
        StackPeek(m);
        var a := PullInc(m);
        var st := SetNZ(m.l.st, a);
        m.l := m.l.(a := a, st := st);
      case PLP =>
        StackPeek(m);
        var p := PullInc(m);
        var st := SetStatus(p);
        m.l := m.l.(st := st);
    }
    m.pc := Advance(m.pc, 1);
  }

  /** BRK while no NMI is pending: the vector is the IRQ one. */
  method BrkMacro(m: Cpu, ghost s: State)
    requires m.ram.Length == 0x10000 && s == m.St().(clk := s.clk) && m.clk == s.clk + 2
    modifies m`l, m`bus, m`clk, m`pc, m.ram
    ensures m.St() == ExecJump(BRK, 0, 0, s) && InStep(m)
  {
    hide Advance, F, StatusByte, Push, Peek, Up, Down, Word, Lo, Hi;
    m.pc := Advance(m.pc, 2);
    var st := SetBreak(m.l.st, true);
    m.l := m.l.(st := st);
    PushInc(m, Hi(m.pc));
    PushInc(m, Lo(m.pc));
    var p := LocalStatus(m.l.st);
    PushInc(m, p);
    st := SetInterrupt(m.l.st, true);
    m.l := m.l.(st := st);
    var lo := LoadInc(m, 0xfffe);
    var hi := LoadInc(m, 0xffff);
    m.pc := Word(lo, hi);
  }

  method JsrMacro(m: Cpu, p1: bv8, ghost s: State)
    requires m.ram.Length == 0x10000 && s == m.St().(clk := s.clk) && m.clk == s.clk + 2
    modifies m`l, m`bus, m`clk, m`pc, m.ram
    ensures m.St() == ExecJump(JSR, p1, 0, s) && InStep(m)
  {
    hide Advance, F, Push, Peek, Up, Down, Word, Lo, Hi;
    StackPeek(m);
    m.pc := Advance(m.pc, 2);
    PushInc(m, Hi(m.pc));
    PushInc(m, Lo(m.pc));
    var hi := LoadInc(m, m.pc);
    m.pc := Word(p1, hi);
  }

  method RtiMacro(m: Cpu, ghost s: State)
    requires m.ram.Length == 0x10000 && s == m.St().(clk := s.clk) && m.clk == s.clk + 2
    modifies m`l, m`bus, m`clk, m`pc
    ensures m.St() == ExecJump(RTI, 0, 0, s) && InStep(m)
  {
    hide F, StatusFlags, Peek, StackAddr, Up, Down, Word;
    StackPeek(m);
    var p := PullInc(m);
    var st := SetStatus(p);
    m.l := m.l.(st := st);
    var lo := PullInc(m);
    var hi := PullInc(m);
    m.pc := Word(lo, hi);
  }

  method RtsMacro(m: Cpu, ghost s: State)
    requires m.ram.Length == 0x10000 && s == m.St().(clk := s.clk) && m.clk == s.clk + 2
    modifies m`l, m`bus, m`clk, m`pc
    ensures m.St() == ExecJump(RTS, 0, 0, s) && InStep(m)
  {
    hide F, Peek, StackAddr, Up, Down, Word, Advance;
    StackPeek(m);
    var lo := PullInc(m);
    var hi := PullInc(m);
    var tmp := Word(lo, hi);
    var dummy := LoadInc(m, tmp);
    m.pc := Advance(tmp, 1);
  }

  method JmpMacro(m: Cpu, i: Instr, p2: bv16, ghost s: State)
    requires m.ram.Length == 0x10000 && s == m.St().(clk := s.clk) && m.clk == s.clk + 3
    requires i == JMP || i == JMI
    modifies m`bus, m`clk, m`pc
    ensures m.St() == ExecJump(i, 0, p2, s) && InStep(m)
  {
    hide F, Peek, Word, Advance;
    if i == JMP {
      m.pc := p2;
    } else {
      var lo := LoadInc(m, p2);
      var hi := LoadInc(m, (p2 & 0xff00) | (Advance(p2, 1) & 0xff));
      m.pc := Word(lo, hi);
    }
  }

  // -------------------------------------------------------------------------
  // One invocation, one instruction, a run

  method ExecuteOther(m: Cpu, i: Instr, p1: bv8, p2: bv16, ghost s: State)
    requires m.ram.Length == 0x10000 && s == m.St().(clk := s.clk) && m.clk >= s.clk
    requires Measured(OtherCase(i), m.clk - s.clk) && i != JAM
    modifies m`l, m`bus, m`clk, m`pc, m.ram
    ensures m.St() == Exec(i, p1, p2, s) && InStep(m)
  {
    hide F, R, ExecBranch, ExecUnstable, ExecStack, ExecRead, ExecModify, ExecSave;
    match i
    case PHA | PHP | PLA | PLP => PushPullMacro(m, i, s);
    case BRK => BrkMacro(m, s);
    case JSR => JsrMacro(m, p1, s);
    case RTI => RtiMacro(m, s);
    case RTS => RtsMacro(m, s);
    case JMP | JMI => JmpMacro(m, i, p2, s);
  }

  /** Expanding an invocation after the fetch does what its instruction does. */
  method Execute(m: Cpu, c: Case, fetched: nat, p1: bv8, p2: bv16, ghost s: State)
    requires m.ram.Length == 0x10000 && Measured(c, fetched) && Meaning(c) != JAM
    requires s == m.St().(clk := s.clk) && m.clk == s.clk + fetched
    modifies m`l, m`bus, m`clk, m`pc, m.ram
    ensures m.St() == Exec(Meaning(c), p1, p2, s) && InStep(m)
  {
    hide F, ExecBranch, ExecUnstable, ExecStack, ExecJump, ReadEffect, ModifyEffect, ImpliedEffect, Advance,
         Poke, Peek, Ea, OperandValue, Crossed, Saved, GetMode, SetMode, SetClk, Paired;
    match c
    case ReadCase(op, g, pc) => ReadMacro(m, op, g, pc, p1, p2);
    case SaveCase(op, f, pc) => SaveMacro(m, op, f, pc, p1, p2);
    case ModifyCase(op, pc, g, f) =>
      RmwClk(g, f, Crossed(GetMode(g), R(m.l), p1, p2, m.Mem()));
      ModifyMacro(m, op, pc, g, f, p1, p2);
    case ShAbsI(op, indexX) => ShAbsMacro(m, op, indexX, p1, p2, s);
    case ShaIndY => ShaIndYMacro(m, p1, p2, s);
    case ImpliedCase(op) => m.l := ImpliedBody(op, m.l); m.pc := Advance(m.pc, 1);
    case BranchCase(flag, sense) => BranchMacro(m, flag, sense, p1, s);
    case OtherCase(i) => ExecuteOther(m, i, p1, p2, s);
  }

  /** The GET_ macros of read-modify-write opcodes take the same time whether or not the page is left. */
  lemma RmwClk(g: GetFunc, s: SetRmwFunc, crossed: bool)
    requires Paired(g, s)
    ensures GetClk(g, crossed) == GetClk(g, true)
  {
  }

  /** One pass through the interpreter loop; the clock ticks exactly once per bus access. */
  method Step(m: Cpu)
    requires m.ram.Length == 0x10000 && Decode(Opcode(m.St())) != JAM
    modifies m`l, m`bus, m`clk, m`pc, m.ram
    ensures m.St() == Isa.Step(old(m.St())) && InStep(m)
  {
    hide Decode, Switch, Meaning, Measured, Exec, F, Peek, Word, Advance, WordOperand, FetchTab;
    ghost var s := m.St();
    var p0 := LoadInc(m, m.pc);
    var p1 := LoadInc(m, Advance(m.pc, 1));
    var hi := 0;
    if FetchTab(p0) {
      hi := LoadInc(m, Advance(m.pc, 2));
    }
    SwitchAgrees(p0);
    FetchTabIsWordOperand(p0);
    label fetched:
    Execute(m, Switch(p0), if FetchTab(p0) then 3 else 2, p1, Word(p1, hi), s);
    assert InStep@fetched(m);
  }

  /** `n` passes; a JAM opcode keeps the processor where it is. */
  method Run(m: Cpu, n: nat)
    requires m.ram.Length == 0x10000
    modifies m`l, m`bus, m`clk, m`pc, m.ram
    ensures m.St() == Isa.Run(old(m.St()), n) && InStep(m)
  {
    hide Decode, Exec, F;
    var k := n;
    while k > 0
      invariant Isa.Run(m.St(), k) == Isa.Run(old(m.St()), n) && InStep(m)
    {
      if Decode(Opcode(m.St())) == JAM {
        JamStays(m.St());
      } else {
        Step(m);
      }
      k := k - 1;
    }
  }
}
