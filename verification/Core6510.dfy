/**
 * The instruction-stepped core: every opcode is one macro invocation that adds whole amounts
 * to the clock.  `Switch` is the opcode switch as a table of those invocations, `Execute`
 * expands one of them, and `Step` is one pass through the interpreter loop.
 */
module Core6510 {
  import opened Isa
  import opened Machine
  import opened CoreCommon

  /** The address arguments the switch passes to macros. */
  datatype AddrExpr =
    | P1          // p1
    | P1PlusX     // p1 + reg_x
    | P1PlusY     // p1 + reg_y
    | P1X         // (p1 + reg_x) & 0xff
    | P1Y         // (p1 + reg_y) & 0xff
    | P2          // p2
    | ZeroAddrX   // LOAD_ZERO_ADDR(p1 + reg_x)

  /** The value arguments the switch passes to macros. */
  datatype LoadExpr = LoadP1 | LoadZeroP1 | LoadZeroX | LoadZeroY | LoadP2 | LoadAbsX | LoadAbsY | LoadIndX | LoadIndY

  /** The load and store functions the switch passes to macros. */
  datatype LoadFunc = LOAD_ZERO | LOAD_ABS | LOAD_ABS_X_RMW | LOAD_ABS_Y_RMW
  datatype StoreFunc = STORE | STORE_ZERO | STORE_ABS | STORE_ABS_X | STORE_ABS_Y | STORE_ABS_X_RMW | STORE_ABS_Y_RMW

  /** One invocation in the switch. */
  datatype Case =
    | ReadCase(rop: ReadOp, value: LoadExpr, rclk: nat, rpc: bv16)
    | NoopCase(nmode: Mode, nclk: nat, npc: bv16)
    | SaveCase(sop: SaveOp, saddr: AddrExpr, sclk1: nat, sclk2: nat, spc: bv16, sstore: StoreFunc)
    | StaIndY
    | ModifyCase(mop: ModifyOp, maddr: AddrExpr, mclk1: nat, mclk2: nat, mpc: bv16, mload: LoadFunc, mstore: StoreFunc)
    | ModifyIndY(yop: ModifyOp)
    | ShAbs(aop: UnstableOp, indexX: bool)
    | ShaIndY
    | ImpliedCase(iop: ImpliedOp)
    | BranchCase(flag: bv8, sense: bool)
    | OtherCase(instr: Instr)

  const CLK_ABS_I_STORE2 := 2
  const CLK_ABS_RMW2 := 3
  const CLK_ABS_I_RMW2 := 3
  const CLK_ZERO_I_STORE := 2
  const CLK_ZERO_I2 := 2
  const CLK_ZERO_RMW := 3
  const CLK_ZERO_I_RMW := 4
  const CLK_IND_X_RMW := 3
  const CLK_IND_Y_RMW1 := 1
  const CLK_IND_Y_RMW2 := 3
  const CLK_IND_Y_W := 2
  const CLK_NOOP_ZERO_X := 2
  const CLK_BRANCH2 := 1
  const CLK_INT_CYCLE := 1
  const CLK_JSR_INT_CYCLE := 1
  const CLK_STACK_PUSH := 1
  const CLK_STACK_PULL := 2
  const CLK_RTS := 3
  const CLK_RTI := 4
  const CLK_BRK := 5

  function Switch0(op: bv8): Case {
    match op
    case 0x00 => OtherCase(BRK)
    case 0x01 => ReadCase(ORA, LoadIndX, 1, 2)
    case 0x02 => OtherCase(JAM)
    case 0x03 => ModifyCase(SLO, ZeroAddrX, 3, CLK_IND_X_RMW, 2, LOAD_ABS, STORE_ABS)
    case 0x04 => NoopCase(Zp, 1, 2)
    case 0x05 => ReadCase(ORA, LoadZeroP1, 1, 2)
    case 0x06 => ModifyCase(ASL, P1, 0, CLK_ZERO_RMW, 2, LOAD_ZERO, STORE_ABS)
    case 0x07 => ModifyCase(SLO, P1, 0, CLK_ZERO_RMW, 2, LOAD_ZERO, STORE_ABS)
    case 0x08 => OtherCase(PHP)
    case 0x09 => ReadCase(ORA, LoadP1, 0, 2)
    case 0x0a => ImpliedCase(AslA)
    case 0x0b => ReadCase(ANC, LoadP1, 0, 2)
    case 0x0c => ReadCase(NOP, LoadP2, 1, 3)
    case 0x0d => ReadCase(ORA, LoadP2, 1, 3)
    case 0x0e => ModifyCase(ASL, P2, 0, CLK_ABS_RMW2, 3, LOAD_ABS, STORE_ABS)
    case _ => ModifyCase(SLO, P2, 0, CLK_ABS_RMW2, 3, LOAD_ABS, STORE_ABS)
  }

  function Switch1(op: bv8): Case {
    match op
    case 0x10 => BranchCase(0, false)
    case 0x11 => ReadCase(ORA, LoadIndY, 1, 2)
    case 0x12 => OtherCase(JAM)
    case 0x13 => ModifyIndY(SLO)
    case 0x14 => NoopCase(ZpX, CLK_NOOP_ZERO_X, 2)
    case 0x15 => ReadCase(ORA, LoadZeroX, CLK_ZERO_I2, 2)
    case 0x16 => ModifyCase(ASL, P1X, 0, CLK_ZERO_I_RMW, 2, LOAD_ZERO, STORE_ABS)
    case 0x17 => ModifyCase(SLO, P1X, 0, CLK_ZERO_I_RMW, 2, LOAD_ZERO, STORE_ABS)
    case 0x18 => ImpliedCase(CLC)
    case 0x19 => ReadCase(ORA, LoadAbsY, 1, 3)
    case 0x1a => ImpliedCase(NOP1)
    case 0x1b => ModifyCase(SLO, P2, 0, CLK_ABS_I_RMW2, 3, LOAD_ABS_Y_RMW, STORE_ABS_Y_RMW)
    case 0x1c => ReadCase(NOP, LoadAbsX, 1, 3)
    case 0x1d => ReadCase(ORA, LoadAbsX, 1, 3)
    case 0x1e => ModifyCase(ASL, P2, 0, CLK_ABS_I_RMW2, 3, LOAD_ABS_X_RMW, STORE_ABS_X_RMW)
    case _ => ModifyCase(SLO, P2, 0, CLK_ABS_I_RMW2, 3, LOAD_ABS_X_RMW, STORE_ABS_X_RMW)
  }

  function Switch2(op: bv8): Case {
    match op
    case 0x20 => OtherCase(JSR)
    case 0x21 => ReadCase(AND, LoadIndX, 1, 2)
    case 0x22 => OtherCase(JAM)
    case 0x23 => ModifyCase(RLA, ZeroAddrX, 3, CLK_IND_X_RMW, 2, LOAD_ABS, STORE_ABS)
    case 0x24 => ReadCase(BIT, LoadZeroP1, 1, 2)
    case 0x25 => ReadCase(AND, LoadZeroP1, 1, 2)
    case 0x26 => ModifyCase(ROL, P1, 0, CLK_ZERO_RMW, 2, LOAD_ZERO, STORE_ABS)
    case 0x27 => ModifyCase(RLA, P1, 0, CLK_ZERO_RMW, 2, LOAD_ZERO, STORE_ABS)
    case 0x28 => OtherCase(PLP)
    case 0x29 => ReadCase(AND, LoadP1, 0, 2)
    case 0x2a => ImpliedCase(RolA)
    case 0x2b => ReadCase(ANC, LoadP1, 0, 2)
    case 0x2c => ReadCase(BIT, LoadP2, 1, 3)
    case 0x2d => ReadCase(AND, LoadP2, 1, 3)
    case 0x2e => ModifyCase(ROL, P2, 0, CLK_ABS_RMW2, 3, LOAD_ABS, STORE_ABS)
    case _ => ModifyCase(RLA, P2, 0, CLK_ABS_RMW2, 3, LOAD_ABS, STORE_ABS)
  }

  function Switch3(op: bv8): Case {
    match op
    case 0x30 => BranchCase(0, true)
    case 0x31 => ReadCase(AND, LoadIndY, 1, 2)
    case 0x32 => OtherCase(JAM)
    case 0x33 => ModifyIndY(RLA)
    case 0x34 => NoopCase(ZpX, CLK_NOOP_ZERO_X, 2)
    case 0x35 => ReadCase(AND, LoadZeroX, CLK_ZERO_I2, 2)
    case 0x36 => ModifyCase(ROL, P1X, 0, CLK_ZERO_I_RMW, 2, LOAD_ZERO, STORE_ABS)
    case 0x37 => ModifyCase(RLA, P1X, 0, CLK_ZERO_I_RMW, 2, LOAD_ZERO, STORE_ABS)
    case 0x38 => ImpliedCase(SEC)
    case 0x39 => ReadCase(AND, LoadAbsY, 1, 3)
    case 0x3a => ImpliedCase(NOP1)
    case 0x3b => ModifyCase(RLA, P2, 0, CLK_ABS_I_RMW2, 3, LOAD_ABS_Y_RMW, STORE_ABS_Y_RMW)
    case 0x3c => ReadCase(NOP, LoadAbsX, 1, 3)
    case 0x3d => ReadCase(AND, LoadAbsX, 1, 3)
    case 0x3e => ModifyCase(ROL, P2, 0, CLK_ABS_I_RMW2, 3, LOAD_ABS_X_RMW, STORE_ABS_X_RMW)
    case _ => ModifyCase(RLA, P2, 0, CLK_ABS_I_RMW2, 3, LOAD_ABS_X_RMW, STORE_ABS_X_RMW)
  }

  function Switch4(op: bv8): Case {
    match op
    case 0x40 => OtherCase(RTI)
    case 0x41 => ReadCase(EOR, LoadIndX, 1, 2)
    case 0x42 => OtherCase(JAM)
    case 0x43 => ModifyCase(SRE, ZeroAddrX, 3, CLK_IND_X_RMW, 2, LOAD_ABS, STORE_ABS)
    case 0x44 => NoopCase(Zp, 1, 2)
    case 0x45 => ReadCase(EOR, LoadZeroP1, 1, 2)
    case 0x46 => ModifyCase(LSR, P1, 0, CLK_ZERO_RMW, 2, LOAD_ZERO, STORE_ABS)
    case 0x47 => ModifyCase(SRE, P1, 0, CLK_ZERO_RMW, 2, LOAD_ZERO, STORE_ABS)
    case 0x48 => OtherCase(PHA)
    case 0x49 => ReadCase(EOR, LoadP1, 0, 2)
    case 0x4a => ImpliedCase(LsrA)
    case 0x4b => ReadCase(ASR, LoadP1, 0, 2)
    case 0x4c => OtherCase(JMP)
    case 0x4d => ReadCase(EOR, LoadP2, 1, 3)
    case 0x4e => ModifyCase(LSR, P2, 0, CLK_ABS_RMW2, 3, LOAD_ABS, STORE_ABS)
    case _ => ModifyCase(SRE, P2, 0, CLK_ABS_RMW2, 3, LOAD_ABS, STORE_ABS)
  }

  function Switch5(op: bv8): Case {
    match op
    case 0x50 => BranchCase(1, false)
    case 0x51 => ReadCase(EOR, LoadIndY, 1, 2)
    case 0x52 => OtherCase(JAM)
    case 0x53 => ModifyIndY(SRE)
    case 0x54 => NoopCase(ZpX, CLK_NOOP_ZERO_X, 2)
    case 0x55 => ReadCase(EOR, LoadZeroX, CLK_ZERO_I2, 2)
    case 0x56 => ModifyCase(LSR, P1X, 0, CLK_ZERO_I_RMW, 2, LOAD_ZERO, STORE_ABS)
    case 0x57 => ModifyCase(SRE, P1X, 0, CLK_ZERO_I_RMW, 2, LOAD_ZERO, STORE_ABS)
    case 0x58 => ImpliedCase(CLI)
    case 0x59 => ReadCase(EOR, LoadAbsY, 1, 3)
    case 0x5a => ImpliedCase(NOP1)
    case 0x5b => ModifyCase(SRE, P2, 0, CLK_ABS_I_RMW2, 3, LOAD_ABS_Y_RMW, STORE_ABS_Y_RMW)
    case 0x5c => ReadCase(NOP, LoadAbsX, 1, 3)
    case 0x5d => ReadCase(EOR, LoadAbsX, 1, 3)
    case 0x5e => ModifyCase(LSR, P2, 0, CLK_ABS_I_RMW2, 3, LOAD_ABS_X_RMW, STORE_ABS_X_RMW)
    case _ => ModifyCase(SRE, P2, 0, CLK_ABS_I_RMW2, 3, LOAD_ABS_X_RMW, STORE_ABS_X_RMW)
  }

  function Switch6(op: bv8): Case {
    match op
    case 0x60 => OtherCase(RTS)
    case 0x61 => ReadCase(ADC, LoadIndX, 1, 2)
    case 0x62 => OtherCase(JAM)
    case 0x63 => ModifyCase(RRA, ZeroAddrX, 3, CLK_IND_X_RMW, 2, LOAD_ABS, STORE_ABS)
    case 0x64 => NoopCase(Zp, 1, 2)
    case 0x65 => ReadCase(ADC, LoadZeroP1, 1, 2)
    case 0x66 => ModifyCase(ROR, P1, 0, CLK_ZERO_RMW, 2, LOAD_ZERO, STORE_ABS)
    case 0x67 => ModifyCase(RRA, P1, 0, CLK_ZERO_RMW, 2, LOAD_ZERO, STORE_ABS)
    case 0x68 => OtherCase(PLA)
    case 0x69 => ReadCase(ADC, LoadP1, 0, 2)
    case 0x6a => ImpliedCase(RorA)
    case 0x6b => ReadCase(ARR, LoadP1, 0, 2)
    case 0x6c => OtherCase(JMI)
    case 0x6d => ReadCase(ADC, LoadP2, 1, 3)
    case 0x6e => ModifyCase(ROR, P2, 0, CLK_ABS_RMW2, 3, LOAD_ABS, STORE_ABS)
    case _ => ModifyCase(RRA, P2, 0, CLK_ABS_RMW2, 3, LOAD_ABS, STORE_ABS)
  }

  function Switch7(op: bv8): Case {
    match op
    case 0x70 => BranchCase(1, true)
    case 0x71 => ReadCase(ADC, LoadIndY, 1, 2)
    case 0x72 => OtherCase(JAM)
    case 0x73 => ModifyIndY(RRA)
    case 0x74 => NoopCase(ZpX, CLK_NOOP_ZERO_X, 2)
    case 0x75 => ReadCase(ADC, LoadZeroX, CLK_ZERO_I2, 2)
    case 0x76 => ModifyCase(ROR, P1X, 0, CLK_ZERO_I_RMW, 2, LOAD_ZERO, STORE_ABS)
    case 0x77 => ModifyCase(RRA, P1X, 0, CLK_ZERO_I_RMW, 2, LOAD_ZERO, STORE_ABS)
    case 0x78 => ImpliedCase(SEI)
    case 0x79 => ReadCase(ADC, LoadAbsY, 1, 3)
    case 0x7a => ImpliedCase(NOP1)
    case 0x7b => ModifyCase(RRA, P2, 0, CLK_ABS_I_RMW2, 3, LOAD_ABS_Y_RMW, STORE_ABS_Y_RMW)
    case 0x7c => ReadCase(NOP, LoadAbsX, 1, 3)
    case 0x7d => ReadCase(ADC, LoadAbsX, 1, 3)
    case 0x7e => ModifyCase(ROR, P2, 0, CLK_ABS_I_RMW2, 3, LOAD_ABS_X_RMW, STORE_ABS_X_RMW)
    case _ => ModifyCase(RRA, P2, 0, CLK_ABS_I_RMW2, 3, LOAD_ABS_X_RMW, STORE_ABS_X_RMW)
  }

  function Switch8(op: bv8): Case {
    match op
    case 0x80 | 0x82 | 0x89 => NoopCase(Imm, 0, 2)
    case 0x81 => SaveCase(STA, ZeroAddrX, 3, 1, 2, STORE_ABS)
    case 0x83 => SaveCase(SAX, ZeroAddrX, 3, 1, 2, STORE)
    case 0x84 => SaveCase(STY, P1, 1, 0, 2, STORE_ZERO)
    case 0x85 => SaveCase(STA, P1, 1, 0, 2, STORE_ZERO)
    case 0x86 => SaveCase(STX, P1, 1, 0, 2, STORE_ZERO)
    case 0x87 => SaveCase(SAX, P1, 1, 0, 2, STORE_ZERO)
    case 0x88 => ImpliedCase(DEY)
    case 0x8a => ImpliedCase(TXA)
    case 0x8b => ReadCase(ANE, LoadP1, 0, 2)
    case 0x8c => SaveCase(STY, P2, 1, 0, 3, STORE)
    case 0x8d => SaveCase(STA, P2, 0, 1, 3, STORE_ABS)
    case 0x8e => SaveCase(STX, P2, 1, 0, 3, STORE)
    case _ => SaveCase(SAX, P2, 0, 1, 3, STORE)
  }

  function Switch9(op: bv8): Case {
    match op
    case 0x90 => BranchCase(2, false)
    case 0x91 => StaIndY
    case 0x92 => OtherCase(JAM)
    case 0x93 => ShaIndY
    case 0x94 => SaveCase(STY, P1PlusX, CLK_ZERO_I_STORE, 0, 2, STORE_ZERO)
    case 0x95 => SaveCase(STA, P1PlusX, CLK_ZERO_I_STORE, 0, 2, STORE_ZERO)
    case 0x96 => SaveCase(STX, P1PlusY, CLK_ZERO_I_STORE, 0, 2, STORE_ZERO)
    case 0x97 => SaveCase(SAX, P1Y, 0, CLK_ZERO_I_STORE, 2, STORE)
    case 0x98 => ImpliedCase(TYA)
    case 0x99 => SaveCase(STA, P2, 0, CLK_ABS_I_STORE2, 3, STORE_ABS_Y)
    case 0x9a => ImpliedCase(TXS)
    case 0x9b => ShAbs(SHS, false)
    case 0x9c => ShAbs(SHY, true)
    case 0x9d => SaveCase(STA, P2, 0, CLK_ABS_I_STORE2, 3, STORE_ABS_X)
    case 0x9e => ShAbs(SHX, false)
    case _ => ShAbs(SHA, false)
  }

  function SwitchA(op: bv8): Case {
    match op
    case 0xa0 => ReadCase(LDY, LoadP1, 0, 2)
    case 0xa1 => ReadCase(LDA, LoadIndX, 1, 2)
    case 0xa2 => ReadCase(LDX, LoadP1, 0, 2)
    case 0xa3 => ReadCase(LAX, LoadIndX, 1, 2)
    case 0xa4 => ReadCase(LDY, LoadZeroP1, 1, 2)
    case 0xa5 => ReadCase(LDA, LoadZeroP1, 1, 2)
    case 0xa6 => ReadCase(LDX, LoadZeroP1, 1, 2)
    case 0xa7 => ReadCase(LAX, LoadZeroP1, 1, 2)
    case 0xa8 => ImpliedCase(TAY)
    case 0xa9 => ReadCase(LDA, LoadP1, 0, 2)
    case 0xaa => ImpliedCase(TAX)
    case 0xab => ReadCase(LXA, LoadP1, 0, 2)
    case 0xac => ReadCase(LDY, LoadP2, 1, 3)
    case 0xad => ReadCase(LDA, LoadP2, 1, 3)
    case 0xae => ReadCase(LDX, LoadP2, 1, 3)
    case _ => ReadCase(LAX, LoadP2, 1, 3)
  }

  function SwitchB(op: bv8): Case {
    match op
    case 0xb0 => BranchCase(2, true)
    case 0xb1 => ReadCase(LDA, LoadIndY, 1, 2)
    case 0xb2 => OtherCase(JAM)
    case 0xb3 => ReadCase(LAX, LoadIndY, 1, 2)
    case 0xb4 => ReadCase(LDY, LoadZeroX, CLK_ZERO_I2, 2)
    case 0xb5 => ReadCase(LDA, LoadZeroX, CLK_ZERO_I2, 2)
    case 0xb6 => ReadCase(LDX, LoadZeroY, CLK_ZERO_I2, 2)
    case 0xb7 => ReadCase(LAX, LoadZeroY, CLK_ZERO_I2, 2)
    case 0xb8 => ImpliedCase(CLV)
    case 0xb9 => ReadCase(LDA, LoadAbsY, 1, 3)
    case 0xba => ImpliedCase(TSX)
    case 0xbb => ReadCase(LAS, LoadAbsY, 1, 3)
    case 0xbc => ReadCase(LDY, LoadAbsX, 1, 3)
    case 0xbd => ReadCase(LDA, LoadAbsX, 1, 3)
    case 0xbe => ReadCase(LDX, LoadAbsY, 1, 3)
    case _ => ReadCase(LAX, LoadAbsY, 1, 3)
  }

  function SwitchC(op: bv8): Case {
    match op
    case 0xc0 => ReadCase(CPY, LoadP1, 0, 2)
    case 0xc1 => ReadCase(CMP, LoadIndX, 1, 2)
    case 0xc2 => NoopCase(Imm, 0, 2)
    case 0xc3 => ModifyCase(DCP, ZeroAddrX, 3, CLK_IND_X_RMW, 2, LOAD_ABS, STORE_ABS)
    case 0xc4 => ReadCase(CPY, LoadZeroP1, 1, 2)
    case 0xc5 => ReadCase(CMP, LoadZeroP1, 1, 2)
    case 0xc6 => ModifyCase(DEC, P1, 0, CLK_ZERO_RMW, 2, LOAD_ZERO, STORE_ABS)
    case 0xc7 => ModifyCase(DCP, P1, 0, CLK_ZERO_RMW, 2, LOAD_ZERO, STORE_ABS)
    case 0xc8 => ImpliedCase(INY)
    case 0xc9 => ReadCase(CMP, LoadP1, 0, 2)
    case 0xca => ImpliedCase(DEX)
    case 0xcb => ReadCase(SBX, LoadP1, 0, 2)
    case 0xcc => ReadCase(CPY, LoadP2, 1, 3)
    case 0xcd => ReadCase(CMP, LoadP2, 1, 3)
    case 0xce => ModifyCase(DEC, P2, 0, CLK_ABS_RMW2, 3, LOAD_ABS, STORE_ABS)
    case _ => ModifyCase(DCP, P2, 0, CLK_ABS_RMW2, 3, LOAD_ABS, STORE_ABS)
  }

  function SwitchD(op: bv8): Case {
    match op
    case 0xd0 => BranchCase(3, false)
    case 0xd1 => ReadCase(CMP, LoadIndY, 1, 2)
    case 0xd2 => OtherCase(JAM)
    case 0xd3 => ModifyIndY(DCP)
    case 0xd4 => NoopCase(ZpX, CLK_NOOP_ZERO_X, 2)
    case 0xd5 => ReadCase(CMP, LoadZeroX, CLK_ZERO_I2, 2)
    case 0xd6 => ModifyCase(DEC, P1X, 0, CLK_ZERO_I_RMW, 2, LOAD_ABS, STORE_ABS)
    case 0xd7 => ModifyCase(DCP, P1X, 0, CLK_ZERO_I_RMW, 2, LOAD_ABS, STORE_ABS)
    case 0xd8 => ImpliedCase(CLD)
    case 0xd9 => ReadCase(CMP, LoadAbsY, 1, 3)
    case 0xda => ImpliedCase(NOP1)
    case 0xdb => ModifyCase(DCP, P2, 0, CLK_ABS_I_RMW2, 3, LOAD_ABS_Y_RMW, STORE_ABS_Y_RMW)
    case 0xdc => ReadCase(NOP, LoadAbsX, 1, 3)
    case 0xdd => ReadCase(CMP, LoadAbsX, 1, 3)
    case 0xde => ModifyCase(DEC, P2, 0, CLK_ABS_I_RMW2, 3, LOAD_ABS_X_RMW, STORE_ABS_X_RMW)
    case _ => ModifyCase(DCP, P2, 0, CLK_ABS_I_RMW2, 3, LOAD_ABS_X_RMW, STORE_ABS_X_RMW)
  }

  function SwitchE(op: bv8): Case {
    match op
    case 0xe0 => ReadCase(CPX, LoadP1, 0, 2)
    case 0xe1 => ReadCase(SBC, LoadIndX, 1, 2)
    case 0xe2 => NoopCase(Imm, 0, 2)
    case 0xe3 => ModifyCase(ISB, ZeroAddrX, 3, CLK_IND_X_RMW, 2, LOAD_ABS, STORE_ABS)
    case 0xe4 => ReadCase(CPX, LoadZeroP1, 1, 2)
    case 0xe5 => ReadCase(SBC, LoadZeroP1, 1, 2)
    case 0xe6 => ModifyCase(INC, P1, 0, CLK_ZERO_RMW, 2, LOAD_ZERO, STORE_ABS)
    case 0xe7 => ModifyCase(ISB, P1, 0, CLK_ZERO_RMW, 2, LOAD_ZERO, STORE_ABS)
    case 0xe8 => ImpliedCase(INX)
    case 0xe9 | 0xeb => ReadCase(SBC, LoadP1, 0, 2)
    case 0xea => ImpliedCase(NOP1)
    case 0xec => ReadCase(CPX, LoadP2, 1, 3)
    case 0xed => ReadCase(SBC, LoadP2, 1, 3)
    case 0xee => ModifyCase(INC, P2, 0, CLK_ABS_RMW2, 3, LOAD_ABS, STORE_ABS)
    case _ => ModifyCase(ISB, P2, 0, CLK_ABS_RMW2, 3, LOAD_ABS, STORE_ABS)
  }

  function SwitchF(op: bv8): Case {
    match op
    case 0xf0 => BranchCase(3, true)
    case 0xf1 => ReadCase(SBC, LoadIndY, 1, 2)
    case 0xf2 => OtherCase(JAM)
    case 0xf3 => ModifyIndY(ISB)
    case 0xf4 => NoopCase(ZpX, CLK_NOOP_ZERO_X, 2)
    case 0xf5 => ReadCase(SBC, LoadZeroX, CLK_ZERO_I2, 2)
    case 0xf6 => ModifyCase(INC, P1X, 0, CLK_ZERO_I_RMW, 2, LOAD_ZERO, STORE_ABS)
    case 0xf7 => ModifyCase(ISB, P1X, 0, CLK_ZERO_I_RMW, 2, LOAD_ZERO, STORE_ABS)
    case 0xf8 => ImpliedCase(SED)
    case 0xf9 => ReadCase(SBC, LoadAbsY, 1, 3)
    case 0xfa => ImpliedCase(NOP1)
    case 0xfb => ModifyCase(ISB, P2, 0, CLK_ABS_I_RMW2, 3, LOAD_ABS_Y_RMW, STORE_ABS_Y_RMW)
    case 0xfc => ReadCase(NOP, LoadAbsX, 1, 3)
    case 0xfd => ReadCase(SBC, LoadAbsX, 1, 3)
    case 0xfe => ModifyCase(INC, P2, 0, CLK_ABS_I_RMW2, 3, LOAD_ABS_X_RMW, STORE_ABS_X_RMW)
    case _ => ModifyCase(ISB, P2, 0, CLK_ABS_I_RMW2, 3, LOAD_ABS_X_RMW, STORE_ABS_X_RMW)
  }

  function Switch(op: bv8): Case {
    if op < 0x80 then
      if op < 0x40 then (if op < 0x20 then (if op < 0x10 then Switch0(op) else Switch1(op))
        else if op < 0x30 then Switch2(op) else Switch3(op))
      else (if op < 0x60 then (if op < 0x50 then Switch4(op) else Switch5(op))
        else if op < 0x70 then Switch6(op) else Switch7(op))
    else
      if op < 0xc0 then (if op < 0xa0 then (if op < 0x90 then Switch8(op) else Switch9(op))
        else if op < 0xb0 then SwitchA(op) else SwitchB(op))
      else (if op < 0xe0 then (if op < 0xd0 then SwitchC(op) else SwitchD(op))
        else if op < 0xf0 then SwitchE(op) else SwitchF(op))
  }

  // -------------------------------------------------------------------------
  // What an invocation must be to implement an instruction

  function LoadMode(e: LoadExpr): Mode {
    match e
    case LoadP1 => Imm
    case LoadZeroP1 => Zp
    case LoadZeroX => ZpX
    case LoadZeroY => ZpY
    case LoadP2 => Abs
    case LoadAbsX => AbsX
    case LoadAbsY => AbsY
    case LoadIndX => IndX
    case LoadIndY => IndY
  }

  /** The time a load expression adds by itself. */
  function LoadClk(e: LoadExpr, crossed: bool): nat {
    match e
    case LoadAbsX => if crossed then 1 else 0
    case LoadAbsY => if crossed then 1 else 0
    case LoadIndX => 3
    case LoadIndY => if crossed then 3 else 2
    case _ => 0
  }

  function SaveMode(a: AddrExpr, f: StoreFunc): Mode {
    match a
    case P1 => if f == STORE_ZERO then Zp else Imm
    case P1PlusX => if f == STORE_ZERO then ZpX else Imm
    case P1PlusY => if f == STORE_ZERO then ZpY else Imm
    case P1Y => if f == STORE then ZpY else Imm
    case P2 =>
      if f == STORE || f == STORE_ABS then Abs
      else if f == STORE_ABS_X then AbsX
      else if f == STORE_ABS_Y then AbsY
      else Imm
    case ZeroAddrX => if f == STORE || f == STORE_ABS then IndX else Imm
    case _ => Imm
  }

  function ModifyMode(a: AddrExpr, load: LoadFunc, store: StoreFunc): Mode {
    match a
    case P1 => if load == LOAD_ZERO && store == STORE_ABS then Zp else Imm
    case P1X => if (load == LOAD_ZERO || load == LOAD_ABS) && store == STORE_ABS then ZpX else Imm
    case P2 =>
      if load == LOAD_ABS && store == STORE_ABS then Abs
      else if load == LOAD_ABS_X_RMW && store == STORE_ABS_X_RMW then AbsX
      else if load == LOAD_ABS_Y_RMW && store == STORE_ABS_Y_RMW then AbsY
      else Imm
    case ZeroAddrX => if load == LOAD_ABS && store == STORE_ABS then IndX else Imm
    case _ => Imm
  }

  function IndexClk(load: LoadFunc): nat {
    if load == LOAD_ABS_X_RMW || load == LOAD_ABS_Y_RMW then CLK_INT_CYCLE else 0
  }

  /** The instruction an invocation carries out. */
  function Meaning(c: Case): Instr {
    match c
    case ReadCase(op, e, _, _) => Read(op, LoadMode(e))
    case NoopCase(mode, _, _) => Read(NOP, mode)
    case SaveCase(op, a, _, _, _, f) => Save(op, SaveMode(a, f))
    case StaIndY => Save(STA, IndY)
    case ModifyCase(op, a, _, _, _, load, store) => Modify(op, ModifyMode(a, load, store))
    case ModifyIndY(op) => Modify(op, IndY)
    case ShAbs(op, indexX) => Unstable(op, if indexX then AbsX else AbsY)
    case ShaIndY => Unstable(SHA, IndY)
    case ImpliedCase(op) => Implied(op)
    case BranchCase(flag, sense) => Branch(flag, sense)
    case OtherCase(instr) => instr
  }

  /** The arguments of an invocation move the program counter and the clock by the right amounts. */
  predicate Measured(c: Case, fetched: nat) {
    match c
    case ReadCase(op, e, clk, pc) =>
      && pc == ModeLength(LoadMode(e))
      && fetched + LoadClk(e, false) + clk == ReadCycles(LoadMode(e), false)
      && fetched + LoadClk(e, true) + clk == ReadCycles(LoadMode(e), true)
    case NoopCase(mode, clk, pc) =>
      (mode == Imm || mode == Zp || mode == ZpX) && pc == 2 && fetched + clk == ReadCycles(mode, false)
    case SaveCase(op, a, clk1, clk2, pc, f) =>
      && SaveMode(a, f) != Imm && pc == ModeLength(SaveMode(a, f))
      && (f == STORE_ABS_X || f == STORE_ABS_Y ==> clk2 >= 2)
      && fetched + clk1 + clk2 == SaveCycles(SaveMode(a, f))
    case ModifyCase(op, a, clk1, clk2, pc, load, store) =>
      var mode := ModifyMode(a, load, store);
      && mode != Imm && pc == ModeLength(mode)
      && fetched + clk1 + clk2 + IndexClk(load) == ModifyCycles(mode)
    case ShAbs(op, indexX) => fetched == 3
    case OtherCase(instr) =>
      && !instr.Read? && !instr.Save? && !instr.Modify? && !instr.Unstable? && !instr.Implied? && !instr.Branch?
      && fetched == (if instr == JMP || instr == JMI then 3 else 2)
    case _ => fetched == 2
  }

  lemma Means0(op: bv8)
    requires 0x00 <= op <= 0x0f
    ensures Meaning(Switch0(op)) == Decode(op)
  {
  }

  lemma Right0(op: bv8)
    requires 0x08 <= op <= 0x0f
    ensures Measured(Switch0(op), FetchCycles(op))
  {
  }

  lemma Measured0(op: bv8)
    requires 0x00 <= op <= 0x0f
    ensures Measured(Switch0(op), FetchCycles(op))
  {
    if op >= 0x08 {
      Right0(op);
    }
  }

  lemma Means1(op: bv8)
    requires 0x10 <= op <= 0x1f
    ensures Meaning(Switch1(op)) == Decode(op)
  {
  }

  lemma Right1(op: bv8)
    requires 0x18 <= op <= 0x1f
    ensures Measured(Switch1(op), FetchCycles(op))
  {
  }

  lemma Measured1(op: bv8)
    requires 0x10 <= op <= 0x1f
    ensures Measured(Switch1(op), FetchCycles(op))
  {
    if op >= 0x18 {
      Right1(op);
    }
  }

  lemma Means2(op: bv8)
    requires 0x20 <= op <= 0x2f
    ensures Meaning(Switch2(op)) == Decode(op)
  {
  }

  lemma Right2(op: bv8)
    requires 0x28 <= op <= 0x2f
    ensures Measured(Switch2(op), FetchCycles(op))
  {
  }

  lemma Measured2(op: bv8)
    requires 0x20 <= op <= 0x2f
    ensures Measured(Switch2(op), FetchCycles(op))
  {
    if op >= 0x28 {
      Right2(op);
    }
  }

  lemma Means3(op: bv8)
    requires 0x30 <= op <= 0x3f
    ensures Meaning(Switch3(op)) == Decode(op)
  {
  }

  lemma Right3(op: bv8)
    requires 0x38 <= op <= 0x3f
    ensures Measured(Switch3(op), FetchCycles(op))
  {
  }

  lemma Measured3(op: bv8)
    requires 0x30 <= op <= 0x3f
    ensures Measured(Switch3(op), FetchCycles(op))
  {
    if op >= 0x38 {
      Right3(op);
    }
  }

  lemma Means4(op: bv8)
    requires 0x40 <= op <= 0x4f
    ensures Meaning(Switch4(op)) == Decode(op)
  {
  }

  lemma Right4(op: bv8)
    requires 0x48 <= op <= 0x4f
    ensures Measured(Switch4(op), FetchCycles(op))
  {
  }

  lemma Measured4(op: bv8)
    requires 0x40 <= op <= 0x4f
    ensures Measured(Switch4(op), FetchCycles(op))
  {
    if op >= 0x48 {
      Right4(op);
    }
  }

  lemma Means5(op: bv8)
    requires 0x50 <= op <= 0x5f
    ensures Meaning(Switch5(op)) == Decode(op)
  {
  }

  lemma Right5(op: bv8)
    requires 0x58 <= op <= 0x5f
    ensures Measured(Switch5(op), FetchCycles(op))
  {
  }

  lemma Measured5(op: bv8)
    requires 0x50 <= op <= 0x5f
    ensures Measured(Switch5(op), FetchCycles(op))
  {
    if op >= 0x58 {
      Right5(op);
    }
  }

  lemma Means6(op: bv8)
    requires 0x60 <= op <= 0x6f
    ensures Meaning(Switch6(op)) == Decode(op)
  {
  }

  lemma Right6(op: bv8)
    requires 0x68 <= op <= 0x6f
    ensures Measured(Switch6(op), FetchCycles(op))
  {
  }

  lemma Measured6(op: bv8)
    requires 0x60 <= op <= 0x6f
    ensures Measured(Switch6(op), FetchCycles(op))
  {
    if op >= 0x68 {
      Right6(op);
    }
  }

  lemma Means7(op: bv8)
    requires 0x70 <= op <= 0x7f
    ensures Meaning(Switch7(op)) == Decode(op)
  {
  }

  lemma Right7(op: bv8)
    requires 0x78 <= op <= 0x7f
    ensures Measured(Switch7(op), FetchCycles(op))
  {
  }

  lemma Measured7(op: bv8)
    requires 0x70 <= op <= 0x7f
    ensures Measured(Switch7(op), FetchCycles(op))
  {
    if op >= 0x78 {
      Right7(op);
    }
  }

  lemma Means8(op: bv8)
    requires 0x80 <= op <= 0x8f
    ensures Meaning(Switch8(op)) == Decode(op)
  {
  }

  lemma Right8(op: bv8)
    requires 0x88 <= op <= 0x8f
    ensures Measured(Switch8(op), FetchCycles(op))
  {
  }

  lemma Measured8(op: bv8)
    requires 0x80 <= op <= 0x8f
    ensures Measured(Switch8(op), FetchCycles(op))
  {
    if op >= 0x88 {
      Right8(op);
    }
  }

  lemma Means9(op: bv8)
    requires 0x90 <= op <= 0x9f
    ensures Meaning(Switch9(op)) == Decode(op)
  {
  }

  lemma Right9(op: bv8)
    requires 0x98 <= op <= 0x9f
    ensures Measured(Switch9(op), FetchCycles(op))
  {
  }

  lemma Measured9(op: bv8)
    requires 0x90 <= op <= 0x9f
    ensures Measured(Switch9(op), FetchCycles(op))
  {
    if op >= 0x98 {
      Right9(op);
    }
  }

  lemma MeansA(op: bv8)
    requires 0xa0 <= op <= 0xaf
    ensures Meaning(SwitchA(op)) == Decode(op)
  {
  }

  lemma RightA(op: bv8)
    requires 0xa8 <= op <= 0xaf
    ensures Measured(SwitchA(op), FetchCycles(op))
  {
  }

  lemma MeasuredA(op: bv8)
    requires 0xa0 <= op <= 0xaf
    ensures Measured(SwitchA(op), FetchCycles(op))
  {
    if op >= 0xa8 {
      RightA(op);
    }
  }

  lemma MeansB(op: bv8)
    requires 0xb0 <= op <= 0xbf
    ensures Meaning(SwitchB(op)) == Decode(op)
  {
  }

  lemma RightB(op: bv8)
    requires 0xb8 <= op <= 0xbf
    ensures Measured(SwitchB(op), FetchCycles(op))
  {
  }

  lemma MeasuredB(op: bv8)
    requires 0xb0 <= op <= 0xbf
    ensures Measured(SwitchB(op), FetchCycles(op))
  {
    if op >= 0xb8 {
      RightB(op);
    }
  }

  lemma MeansC(op: bv8)
    requires 0xc0 <= op <= 0xcf
    ensures Meaning(SwitchC(op)) == Decode(op)
  {
  }

  lemma RightC(op: bv8)
    requires 0xc8 <= op <= 0xcf
    ensures Measured(SwitchC(op), FetchCycles(op))
  {
  }

  lemma MeasuredC(op: bv8)
    requires 0xc0 <= op <= 0xcf
    ensures Measured(SwitchC(op), FetchCycles(op))
  {
    if op >= 0xc8 {
      RightC(op);
    }
  }

  lemma MeansD(op: bv8)
    requires 0xd0 <= op <= 0xdf
    ensures Meaning(SwitchD(op)) == Decode(op)
  {
  }

  lemma RightD(op: bv8)
    requires 0xd8 <= op <= 0xdf
    ensures Measured(SwitchD(op), FetchCycles(op))
  {
  }

  lemma MeasuredD(op: bv8)
    requires 0xd0 <= op <= 0xdf
    ensures Measured(SwitchD(op), FetchCycles(op))
  {
    if op >= 0xd8 {
      RightD(op);
    }
  }

  lemma MeansE(op: bv8)
    requires 0xe0 <= op <= 0xef
    ensures Meaning(SwitchE(op)) == Decode(op)
  {
  }

  lemma RightE(op: bv8)
    requires 0xe8 <= op <= 0xef
    ensures Measured(SwitchE(op), FetchCycles(op))
  {
  }

  lemma MeasuredE(op: bv8)
    requires 0xe0 <= op <= 0xef
    ensures Measured(SwitchE(op), FetchCycles(op))
  {
    if op >= 0xe8 {
      RightE(op);
    }
  }

  lemma MeansF(op: bv8)
    requires 0xf0 <= op <= 0xff
    ensures Meaning(SwitchF(op)) == Decode(op)
  {
  }

  lemma RightF(op: bv8)
    requires 0xf8 <= op <= 0xff
    ensures Measured(SwitchF(op), FetchCycles(op))
  {
  }

  lemma MeasuredF(op: bv8)
    requires 0xf0 <= op <= 0xff
    ensures Measured(SwitchF(op), FetchCycles(op))
  {
    if op >= 0xf8 {
      RightF(op);
    }
  }

  lemma SwitchAgrees(op: bv8)
    ensures Meaning(Switch(op)) == Decode(op) && Measured(Switch(op), FetchCycles(op))
  {
    hide Meaning, Measured, Decode, FetchCycles;
    if op < 0x80 {
      if op < 0x40 {
        if op < 0x20 {
          if op < 0x10 {
            Means0(op);
            Measured0(op);
          } else {
            Means1(op);
            Measured1(op);
          }
        } else {
          if op < 0x30 {
            Means2(op);
            Measured2(op);
          } else {
            Means3(op);
            Measured3(op);
          }
        }
      } else {
        if op < 0x60 {
          if op < 0x50 {
            Means4(op);
            Measured4(op);
          } else {
            Means5(op);
            Measured5(op);
          }
        } else {
          if op < 0x70 {
            Means6(op);
            Measured6(op);
          } else {
            Means7(op);
            Measured7(op);
          }
        }
      }
    } else {
      if op < 0xc0 {
        if op < 0xa0 {
          if op < 0x90 {
            Means8(op);
            Measured8(op);
          } else {
            Means9(op);
            Measured9(op);
          }
        } else {
          if op < 0xb0 {
            MeansA(op);
            MeasuredA(op);
          } else {
            MeansB(op);
            MeasuredB(op);
          }
        }
      } else {
        if op < 0xe0 {
          if op < 0xd0 {
            MeansC(op);
            MeasuredC(op);
          } else {
            MeansD(op);
            MeasuredD(op);
          }
        } else {
          if op < 0xf0 {
            MeansE(op);
            MeasuredE(op);
          } else {
            MeansF(op);
            MeasuredF(op);
          }
        }
      }
    }
  }

  // -------------------------------------------------------------------------
  // Addressing macros

  method LoadZeroAddr(m: Cpu, addr: bv16) returns (a: bv16)
    requires m.ram.Length == 0x10000
    modifies m`bus
    ensures a == Word(Peek(m.Mem(), addr & 0xff), Peek(m.Mem(), (addr + 1) & 0xff))
  {
    hide Word, Peek;
    var hi := m.LoadZero(addr + 1);
    var lo := m.LoadZero(addr);
    a := Word(lo, hi);
  }

  method LoadZeroAddrX(m: Cpu, p1: bv8) returns (a: bv16)
    requires m.ram.Length == 0x10000
    modifies m`bus
    ensures a == ZWord(m.Mem(), ZeroIndexed(p1, m.l.x))
  {
    hide Word, Peek, ZeroIndexed, Indexed;
    ZeroWrap(p1, m.l.x);
    a := LoadZeroAddr(m, Indexed(p1 as bv16, m.l.x));
  }

  method LoadZeroAddrP1(m: Cpu, p1: bv8) returns (a: bv16)
    requires m.ram.Length == 0x10000
    modifies m`bus
    ensures a == ZWord(m.Mem(), p1 as bv16)
  {
    hide Word, Peek;
    ZeroPlain(p1);
    a := LoadZeroAddr(m, p1 as bv16);
  }

  /** LOAD_ABS_X and LOAD_ABS_Y: a dummy read and one more cycle when the index leaves the page. */
  method LoadAbsI(m: Cpu, addr: bv16, index: bv8) returns (v: bv8)
    requires m.ram.Length == 0x10000
    modifies m`bus, m`clk
    ensures v == Peek(m.Mem(), Indexed(addr, index))
    ensures m.clk == old(m.clk) + (if SamePage(addr, Indexed(addr, index)) then 0 else 1)
  {
    hide SamePage, Indexed, Peek;
    PageCross(addr, index);
    if addr & 0xff + index as bv16 > 0xff {
      var dummy := m.Load((addr & 0xff00) | (Indexed(addr, index) & 0xff));
      m.clk := m.clk + CLK_INT_CYCLE;
      v := m.Load(Indexed(addr, index));
    } else {
      v := m.Load(Indexed(addr, index));
    }
  }

  method LoadIndirectY(m: Cpu, p1: bv8) returns (v: bv8)
    requires m.ram.Length == 0x10000
    modifies m`bus, m`clk
    ensures var base := ZWord(m.Mem(), p1 as bv16); var ea := Indexed(base, m.l.y);
            v == Peek(m.Mem(), ea) && m.clk == old(m.clk) + (if SamePage(base, ea) then 2 else 3)
  {
    hide SamePage, Indexed, Peek, ZWord;
    m.clk := m.clk + 2;
    var base := LoadZeroAddrP1(m, p1);
    v := LoadAbsI(m, base, m.l.y);
  }

  method EvalZero(m: Cpu, e: LoadExpr, p1: bv8, p2: bv16) returns (v: bv8)
    requires m.ram.Length == 0x10000
    requires e == LoadZeroP1 || e == LoadZeroX || e == LoadZeroY
    modifies m`bus, m`clk
    ensures v == OperandValue(LoadMode(e), R(m.l), p1, p2, m.Mem()) && m.clk == old(m.clk)
  {
    hide F, ZWord, Peek, ZeroIndexed, Indexed;
    match e
    case LoadZeroP1 => ZeroPlain(p1); v := m.LoadZero(p1 as bv16);
    case LoadZeroX => ZeroWrap(p1, m.l.x); v := m.LoadZero(Indexed(p1 as bv16, m.l.x));
    case LoadZeroY => ZeroWrap(p1, m.l.y); v := m.LoadZero(Indexed(p1 as bv16, m.l.y));
  }

  method EvalLoad(m: Cpu, e: LoadExpr, p1: bv8, p2: bv16) returns (v: bv8)
    requires m.ram.Length == 0x10000
    modifies m`bus, m`clk
    ensures v == OperandValue(LoadMode(e), R(m.l), p1, p2, m.Mem())
    ensures m.clk == old(m.clk) + LoadClk(e, Crossed(LoadMode(e), R(m.l), p1, p2, m.Mem()))
  {
    hide F, ZWord, Peek, SamePage, ZeroIndexed, Indexed;
    match e
    case LoadP1 => v := p1;
    case LoadZeroP1 => v := EvalZero(m, e, p1, p2);
    case LoadZeroX => v := EvalZero(m, e, p1, p2);
    case LoadZeroY => v := EvalZero(m, e, p1, p2);
    case LoadP2 => v := m.Load(p2);
    case LoadAbsX => v := LoadAbsI(m, p2, m.l.x);
    case LoadAbsY => v := LoadAbsI(m, p2, m.l.y);
    case LoadIndX =>
      m.clk := m.clk + 3;
      var a := LoadZeroAddrX(m, p1);
      v := m.Load(a);
    case LoadIndY => v := LoadIndirectY(m, p1);
  }

  // -------------------------------------------------------------------------
  // Opcodes that only read

  method ReadMacro(m: Cpu, op: ReadOp, e: LoadExpr, clkInc: nat, pcInc: bv16, p1: bv8, p2: bv16)
    requires m.ram.Length == 0x10000
    modifies m`l, m`bus, m`clk, m`pc
    ensures R(m.l) == ReadEffect(op, R(old(m.l)), OperandValue(LoadMode(e), R(old(m.l)), p1, p2, m.Mem()))
    ensures m.pc == Advance(old(m.pc), pcInc)
    ensures m.clk == old(m.clk) + LoadClk(e, Crossed(LoadMode(e), R(old(m.l)), p1, p2, m.Mem())) + clkInc
  {
    hide F, R, ReadEffect, OperandValue, Crossed, LoadClk, LoadMode, Advance;
    var v := EvalLoad(m, e, p1, p2);
    m.clk := m.clk + clkInc;
    m.l := ReadBody(op, m.l, v);
    m.pc := Advance(m.pc, pcInc);
  }

  method NoopMacro(m: Cpu, clkInc: nat, pcInc: bv16)
    modifies m`clk, m`pc
    ensures m.pc == Advance(old(m.pc), pcInc) && m.clk == old(m.clk) + clkInc
  {
    m.clk := m.clk + clkInc;
    m.pc := Advance(m.pc, pcInc);
  }

  // -------------------------------------------------------------------------
  // Stores

  function InZeroPage(addr: bv16): bv16 {
    addr & 0xff
  }

  /** What an address expression stands for; the sums that are not cut off only in their low byte. */
  predicate Evaluates(a: AddrExpr, addr: bv16, l: Locals, p1: bv8, p2: bv16, mem: Ram) {
    match a
    case P1 => addr == p1 as bv16
    case P1PlusX => InZeroPage(addr) == ZeroIndexed(p1, l.x)
    case P1PlusY => InZeroPage(addr) == ZeroIndexed(p1, l.y)
    case P1X => addr == ZeroIndexed(p1, l.x)
    case P1Y => addr == ZeroIndexed(p1, l.y)
    case P2 => addr == p2
    case ZeroAddrX => addr == ZWord(mem, ZeroIndexed(p1, l.x))
  }

  method EvalAddr(m: Cpu, a: AddrExpr, p1: bv8, p2: bv16) returns (addr: bv16)
    requires m.ram.Length == 0x10000
    modifies m`bus
    ensures Evaluates(a, addr, m.l, p1, p2, m.Mem())
  {
    hide ZWord, ZeroIndexed, Indexed;
    ZeroWrap(p1, m.l.x);
    ZeroWrap(p1, m.l.y);
    match a
    case P1 => addr := p1 as bv16;
    case P1PlusX => addr := Indexed(p1 as bv16, m.l.x);
    case P1PlusY => addr := Indexed(p1 as bv16, m.l.y);
    case P1X => addr := Indexed(p1 as bv16, m.l.x) & 0xff;
    case P1Y => addr := Indexed(p1 as bv16, m.l.y) & 0xff;
    case P2 => addr := p2;
    case ZeroAddrX => addr := LoadZeroAddrX(m, p1);
  }

  /** STORE_ABS_X and STORE_ABS_Y: a dummy read two cycles before the write. */
  method StoreAbsI(m: Cpu, addr: bv16, index: bv8, value: bv8, inc: nat)
    requires m.ram.Length == 0x10000 && inc >= 2
    modifies m`bus, m`clk, m.ram
    ensures m.Mem() == Poke(old(m.Mem()), Indexed(addr, index), value) && m.clk == old(m.clk) + inc
  {
    hide Poke, Indexed;
    m.clk := m.clk + inc - 2;
    var dummy := m.Load((Indexed(addr, index) & 0xff) | (addr & 0xff00));
    m.clk := m.clk + 2;
    m.Store(Indexed(addr, index), value);
  }

  method CallStore(m: Cpu, f: StoreFunc, addr: bv16, value: bv8, inc: nat)
    requires m.ram.Length == 0x10000
    requires f == STORE_ABS_X || f == STORE_ABS_Y ==> inc >= 2
    modifies m`bus, m`clk, m.ram
    ensures m.clk == old(m.clk) + inc
    ensures m.Mem() == Poke(old(m.Mem()), Target(f, addr, m.l), value)
  {
    hide Poke, Indexed;
    match f
    case STORE => m.clk := m.clk + inc; m.Store(addr, value);
    case STORE_ZERO => m.clk := m.clk + inc; m.StoreZero(addr, value);
    case STORE_ABS => m.clk := m.clk + inc; m.Store(addr, value);
    case STORE_ABS_X => StoreAbsI(m, addr, m.l.x, value, inc);
    case STORE_ABS_Y => StoreAbsI(m, addr, m.l.y, value, inc);
    case STORE_ABS_X_RMW => m.clk := m.clk + inc; m.Store(Indexed(addr, m.l.x), value);
    case STORE_ABS_Y_RMW => m.clk := m.clk + inc; m.Store(Indexed(addr, m.l.y), value);
  }

  function Target(f: StoreFunc, addr: bv16, l: Locals): bv16 {
    match f
    case STORE => addr
    case STORE_ZERO => InZeroPage(addr)
    case STORE_ABS => addr
    case STORE_ABS_X => Indexed(addr, l.x)
    case STORE_ABS_Y => Indexed(addr, l.y)
    case STORE_ABS_X_RMW => Indexed(addr, l.x)
    case STORE_ABS_Y_RMW => Indexed(addr, l.y)
  }

  method SaveMacro(m: Cpu, op: SaveOp, a: AddrExpr, clk1: nat, clk2: nat, pcInc: bv16, f: StoreFunc, p1: bv8, p2: bv16)
    requires m.ram.Length == 0x10000 && SaveMode(a, f) != Imm
    requires f == STORE_ABS_X || f == STORE_ABS_Y ==> clk2 >= 2
    modifies m`bus, m`clk, m`pc, m.ram
    ensures m.Mem() == Poke(old(m.Mem()), Ea(SaveMode(a, f), R(m.l), p1, p2, old(m.Mem())), Saved(op, R(m.l)))
    ensures m.pc == Advance(old(m.pc), pcInc) && m.clk == old(m.clk) + clk1 + clk2
  {
    hide Poke, Advance, Saved, F, Evaluates, Target, Ea, SaveMode;
    m.clk := m.clk + clk1;
    var tmp := EvalAddr(m, a, p1, p2);
    m.pc := Advance(m.pc, pcInc);
    SaveEa(a, f, tmp, m.l, p1, p2, m.Mem());
    CallStore(m, f, tmp, SavedRegister(op, m.l), clk2);
  }

  lemma SaveEa(a: AddrExpr, f: StoreFunc, addr: bv16, l: Locals, p1: bv8, p2: bv16, mem: Ram)
    requires SaveMode(a, f) != Imm && Evaluates(a, addr, l, p1, p2, mem)
    ensures Target(f, addr, l) == Ea(SaveMode(a, f), R(l), p1, p2, mem)
  {
    hide Indexed, ZeroIndexed, ZWord, F, InZeroPage;
    if a == P1 {
      ZeroPageStays(p1, l.x);
    }
  }

  method StaIndYMacro(m: Cpu, p1: bv8, p2: bv16)
    requires m.ram.Length == 0x10000
    modifies m`bus, m`clk, m`pc, m.ram
    ensures m.Mem() == Poke(old(m.Mem()), Ea(IndY, R(m.l), p1, p2, old(m.Mem())), Saved(STA, R(m.l)))
    ensures m.pc == Advance(old(m.pc), 2) && m.clk == old(m.clk) + 4
  {
    hide Poke, Indexed, Advance, ZWord, F;
    m.clk := m.clk + 2;
    var tmp := LoadZeroAddrP1(m, p1);
    var dummy := m.Load((tmp & 0xff00) | (Indexed(tmp, m.l.y) & 0xff));
    m.clk := m.clk + CLK_IND_Y_W;
    m.pc := Advance(m.pc, 2);
    m.Store(Indexed(tmp, m.l.y), m.l.a);
  }

  // -------------------------------------------------------------------------
  // Read, modify, write

  method SloRlaSreRra(op: ModifyOp, l: Locals, value: bv8) returns (r: Locals, tmp: bv16)
    requires op == SLO || op == RLA || op == SRE || op == RRA
    ensures Result(Lo(tmp), R(r)) == ModifyEffect(op, R(l), value)
  {
    hide F, Neg, Rotated, Bit, Lo, ReadEffect, ShiftedRegs;
    match op
    case SLO =>
      // BYTE tmp_value
      var tmpValue := value << 1;
      TopBit(value);
      LoOfByte(tmpValue);
      r := Combine(ORA, l, tmpValue, value & 0x80 != 0);
      tmp := tmpValue as bv16;
    case RLA =>
      tmp := RotateLeft(value, CarrySet(l.st));
      r := Combine(AND, l, Lo(tmp), tmp & 0x100 != 0);
    case SRE =>
      // BYTE tmp
      var tmpValue := value >> 1;
      LoOfByte(tmpValue);
      r := Combine(EOR, l, tmpValue, value & 0x01 != 0);
      tmp := tmpValue as bv16;
    case RRA => r, tmp := Rra(l, value);
  }

  method Rra(l: Locals, value: bv8) returns (r: Locals, tmp: bv16)
    ensures Result(Lo(tmp), R(r)) == ModifyEffect(RRA, R(l), value)
  {
    hide F, Neg, Rotated, Bit, Lo, ReadEffect, ShiftedRegs;
    var myTemp := value >> 1;
    RotatedByOr(value);
    if CarrySet(l.st) {
      myTemp := myTemp | 0x80;
    }
    LoOfByte(myTemp);
    r := Combine(ADC, l, myTemp, value & 0x01 != 0);
    tmp := myTemp as bv16;
  }

  lemma RotatedByOr(v: bv8)
    ensures Rotated(v, Bit(true, 0x80)) == (v >> 1) | 0x80 && Rotated(v, Bit(false, 0x80)) == v >> 1
  {
  }

  method DcpIsb(op: ModifyOp, l: Locals, value: bv8) returns (r: Locals, tmp: bv16)
    requires op == DCP || op == ISB
    ensures Result(Lo(tmp), R(r)) == ModifyEffect(op, R(l), value)
  {
    hide F, Neg, Lo, ReadEffect, ShiftedRegs;
    match op
    case DCP =>
      var w := value - 1;
      LoOfByte(w);
      r := CombineCount(CMP, l, w);
      tmp := w as bv16;
    case ISB =>
      // BYTE my_src
      var w := value + 1;
      LoOfByte(w);
      r := CombineCount(SBC, l, w);
      tmp := w as bv16;
  }

  method ModifyBody(op: ModifyOp, l: Locals, value: bv8) returns (r: Locals, tmp: bv16)
    ensures Result(Lo(tmp), R(r)) == ModifyEffect(op, R(l), value)
  {
    hide F, R, Lo, ShiftEffect, Then;
    match op
    case SLO | RLA | SRE | RRA => r, tmp := SloRlaSreRra(op, l, value);
    case DCP | ISB => r, tmp := DcpIsb(op, l, value);
    case _ => r, tmp := ShiftBody(op, l, value);
  }

  method CallLoad(m: Cpu, f: LoadFunc, addr: bv16) returns (v: bv8)
    requires m.ram.Length == 0x10000
    modifies m`bus, m`clk
    ensures v == Peek(m.Mem(), Source(f, addr, m.l)) && m.clk == old(m.clk) + IndexClk(f)
  {
    hide Peek, Indexed;
    match f
    case LOAD_ZERO => v := m.LoadZero(addr);
    case LOAD_ABS => v := m.Load(addr);
    case LOAD_ABS_X_RMW =>
      var dummy := m.Load((addr & 0xff00) | (Indexed(addr, m.l.x) & 0xff));
      m.clk := m.clk + CLK_INT_CYCLE;
      v := m.Load(Indexed(addr, m.l.x));
    case LOAD_ABS_Y_RMW =>
      var dummy := m.Load((addr & 0xff00) | (Indexed(addr, m.l.y) & 0xff));
      m.clk := m.clk + CLK_INT_CYCLE;
      v := m.Load(Indexed(addr, m.l.y));
  }

  function Source(f: LoadFunc, addr: bv16, l: Locals): bv16 {
    match f
    case LOAD_ZERO => InZeroPage(addr)
    case LOAD_ABS => addr
    case LOAD_ABS_X_RMW => Indexed(addr, l.x)
    case LOAD_ABS_Y_RMW => Indexed(addr, l.y)
  }

  /** Where a read-modify-write invocation reads is where it writes, and that is the operand. */
  method ModifyAddr(m: Cpu, a: AddrExpr, load: LoadFunc, store: StoreFunc, p1: bv8, p2: bv16) returns (addr: bv16)
    requires m.ram.Length == 0x10000 && ModifyMode(a, load, store) != Imm
    modifies m`bus
    ensures Source(load, addr, m.l) == Ea(ModifyMode(a, load, store), R(m.l), p1, p2, m.Mem())
    ensures Target(store, addr, m.l) == Ea(ModifyMode(a, load, store), R(m.l), p1, p2, m.Mem())
  {
    hide Evaluates, Source, Target, Ea, ModifyMode, F;
    addr := EvalAddr(m, a, p1, p2);
    ModifyEa(a, load, store, addr, m.l, p1, p2, m.Mem());
  }

  lemma ModifyEa(a: AddrExpr, load: LoadFunc, store: StoreFunc, addr: bv16, l: Locals, p1: bv8, p2: bv16, mem: Ram)
    requires ModifyMode(a, load, store) != Imm && Evaluates(a, addr, l, p1, p2, mem)
    ensures Source(load, addr, l) == Target(store, addr, l) == Ea(ModifyMode(a, load, store), R(l), p1, p2, mem)
  {
    hide Indexed, ZeroIndexed, ZWord, F, InZeroPage;
    match a
    case P1 => ZeroPageStays(p1, l.x);
    case P1X => ZeroPageStays(p1, l.x);
    case _ =>
  }

  lemma ZeroPageStays(p1: bv8, index: bv8)
    ensures InZeroPage(p1 as bv16) == p1 as bv16
    ensures InZeroPage(ZeroIndexed(p1, index)) == ZeroIndexed(p1, index)
  {
    ZeroPlain(p1);
    ZeroPlain(p1 + index);
  }

  method ModifyMacro(m: Cpu, op: ModifyOp, a: AddrExpr, clk1: nat, clk2: nat, pcInc: bv16,
                     load: LoadFunc, store: StoreFunc, p1: bv8, p2: bv16)
    requires m.ram.Length == 0x10000 && ModifyMode(a, load, store) != Imm
    modifies m`l, m`bus, m`clk, m`pc, m.ram
    ensures var ea := Ea(ModifyMode(a, load, store), R(old(m.l)), p1, p2, old(m.Mem()));
            var e := ModifyEffect(op, R(old(m.l)), Peek(old(m.Mem()), ea));
            R(m.l) == e.regs && m.Mem() == Poke(old(m.Mem()), ea, e.value)
    ensures m.pc == Advance(old(m.pc), pcInc) && m.clk == old(m.clk) + clk1 + clk2 + IndexClk(load)
  {
    hide F, Ea, Peek, Poke, Advance, ModifyEffect, Indexed, Lo, Source;
    var addr := ModifyAddr(m, a, load, store, p1, p2);
    m.clk := m.clk + clk1;
    var v := CallLoad(m, load, addr);
    var r, tmp := ModifyBody(op, m.l, v);
    SameIndex(op, m.l, v, r);
    SameTarget(store, addr, m.l, r);
    m.l := r;
    m.pc := Advance(m.pc, pcInc);
    CallStore(m, store, addr, Lo(tmp), clk2);
  }

  lemma SameTarget(f: StoreFunc, addr: bv16, l: Locals, r: Locals)
    requires r.x == l.x && r.y == l.y
    ensures Target(f, addr, l) == Target(f, addr, r)
  {
  }

  method ModifyIndYMacro(m: Cpu, op: ModifyOp, p1: bv8, p2: bv16)
    requires m.ram.Length == 0x10000
    modifies m`l, m`bus, m`clk, m`pc, m.ram
    ensures var ea := Ea(IndY, R(old(m.l)), p1, p2, old(m.Mem()));
            var e := ModifyEffect(op, R(old(m.l)), Peek(old(m.Mem()), ea));
            R(m.l) == e.regs && m.Mem() == Poke(old(m.Mem()), ea, e.value)
    ensures m.pc == Advance(old(m.pc), 2) && m.clk == old(m.clk) + 6
  {
    hide F, Peek, Poke, Advance, ModifyEffect, Indexed, Lo, ZWord;
    var base := LoadZeroAddrP1(m, p1);
    m.clk := m.clk + 2;
    var addr := Indexed(base, m.l.y);
    var dummy := m.Load((base & 0xff00) | (addr & 0xff));
    m.clk := m.clk + CLK_IND_Y_RMW1;
    var v := m.Load(addr);
    var r, tmp := ModifyBody(op, m.l, v);
    m.l := r;
    m.pc := Advance(m.pc, 2);
    m.clk := m.clk + CLK_IND_Y_RMW2;
    m.Store(addr, Lo(tmp));
  }

  // -------------------------------------------------------------------------
  // The unstable stores

  /** STORE_ABS_SH_X and STORE_ABS_SH_Y in SHA, SHX, SHY and SHS. */
  method ShAbsI(m: Cpu, op: UnstableOp, mode: Mode, index: bv8, p1: bv8, p2: bv16, ghost s: State)
    requires m.ram.Length == 0x10000 && s == m.St().(clk := s.clk) && m.clk == s.clk + 3
    requires (mode == AbsX && index == m.l.x) || (mode == AbsY && index == m.l.y)
    modifies m`l, m`bus, m`clk, m`pc, m.ram
    ensures m.St() == ExecUnstable(op, mode, p1, p2, s)
  {
    ShAbsStore(m, op, mode, index, p1, p2, s);
    hide Poke, UnstableValue, UnstableSource, F, Ea, Crossed;
    if op == SHS {
      m.l := m.l.(sp := m.l.a & m.l.x);
    }
  }

  /** The store itself. */
  method ShAbsStore(m: Cpu, op: UnstableOp, mode: Mode, index: bv8, p1: bv8, p2: bv16, ghost s: State)
    requires m.ram.Length == 0x10000 && s == m.St().(clk := s.clk) && m.clk == s.clk + 3
    requires (mode == AbsX && index == m.l.x) || (mode == AbsY && index == m.l.y)
    modifies m`bus, m`clk, m`pc, m.ram
    ensures m.St() == ExecUnstable(op, mode, p1, p2, s).(r := s.r)
  {
    UnstableAbs(op, mode, p1, p2, s);
    hide ExecUnstable;
    hide Poke, Indexed, SamePage, Lo, Word, UnstableValue, Advance, F, UnstableSource, UnstableRegister;
    m.pc := Advance(m.pc, 3);
    m.clk := m.clk + CLK_ABS_I_STORE2 - 2;
    DummyLoad(m, p2, index);
    m.clk := m.clk + 2;
    StoreSh(m, p2, index, UnstableRegister(op, m.l), Indexed(p2, index));
  }

  /** The idle read before the page is corrected. */
  method DummyLoad(m: Cpu, addr: bv16, index: bv8)
    requires m.ram.Length == 0x10000
    modifies m`bus
    ensures m.bus == old(m.bus) + 1
  {
    var dummy := m.Load((Indexed(addr, index) & 0xff) | (addr & 0xff00));
  }

  method ShAbsMacro(m: Cpu, op: UnstableOp, indexX: bool, p1: bv8, p2: bv16, ghost s: State)
    requires m.ram.Length == 0x10000 && s == m.St().(clk := s.clk) && m.clk == s.clk + 3
    modifies m`l, m`bus, m`clk, m`pc, m.ram
    ensures m.St() == ExecUnstable(op, if indexX then AbsX else AbsY, p1, p2, s)
  {
    hide ExecUnstable;
    if indexX {
      ShAbsI(m, op, AbsX, m.l.x, p1, p2, s);
    } else {
      ShAbsI(m, op, AbsY, m.l.y, p1, p2, s);
    }
  }

  method ShaIndYMacro(m: Cpu, p1: bv8, p2: bv16, ghost s: State)
    requires m.ram.Length == 0x10000 && s == m.St().(clk := s.clk) && m.clk == s.clk + 2
    modifies m`l, m`bus, m`clk, m`pc, m.ram
    ensures m.St() == ExecUnstable(SHA, IndY, p1, p2, s)
  {
    hide Poke, Indexed, SamePage, Lo, Word, UnstableValue, Advance, F, ZWord, UnstableSource, UnstableRegister;
    m.clk := m.clk + 2;
    var tmp := LoadZeroAddrP1(m, p1);
    var dummy := m.Load((tmp & 0xff00) | (Indexed(tmp, m.l.y) & 0xff));
    m.clk := m.clk + CLK_IND_Y_W;
    m.pc := Advance(m.pc, 2);
    StoreSh(m, tmp, m.l.y, UnstableRegister(SHA, m.l), tmp);
  }

  // -------------------------------------------------------------------------
  // Branches, jumps and the stack

  method BranchMacro(m: Cpu, flag: bv8, sense: bool, p1: bv8, ghost s: State)
    requires m.ram.Length == 0x10000 && s == m.St().(clk := s.clk) && m.clk == s.clk + 2
    modifies m`bus, m`clk, m`pc
    ensures m.St() == ExecBranch(Taken(flag, sense, s.r.f), p1, s)
  {
    hide Advance, F, Taken, SamePage, SignExtend, SignedChar;
    var cond := BranchCondition(flag, sense, m.l.st);
    m.pc := Advance(m.pc, 2);
    if cond {
      SignedCharExtends(p1);
      var dest := Advance(m.pc, SignedChar(p1));
      BranchPage(m.pc, dest);
      var dummy := m.Load(m.pc);
      m.clk := m.clk + CLK_BRANCH2;
      if (m.pc ^ dest) & 0xff00 != 0 {
        dummy := m.Load((m.pc & 0xff00) | (dest & 0xff));
        m.clk := m.clk + CLK_BRANCH2;
      }
      m.pc := dest;
    }
  }

  method PushPullMacro(m: Cpu, i: Instr, ghost s: State)
    requires m.ram.Length == 0x10000 && s == m.St().(clk := s.clk) && m.clk == s.clk + 2
    requires i == PHA || i == PHP || i == PLA || i == PLP
    modifies m`l, m`bus, m`clk, m`pc, m.ram
    ensures m.St() == ExecStack(i, s)
  {
    hide Advance, F, StatusByte, StatusFlags, Push, Peek, StackAddr, Up, Down, WithNZ;
    match i
    case PHA =>
      m.clk := m.clk + CLK_STACK_PUSH;
      m.PushByte(m.l.a);
      m.pc := Advance(m.pc, 1);
    case PHP =>
      m.clk := m.clk + CLK_STACK_PUSH;
      var p := LocalStatus(m.l.st);
      StatusWithBreak(F(m.l.st));
      m.PushByte(p | P_BREAK);
      m.pc := Advance(m.pc, 1);
    case PLA =>
      m.clk := m.clk + CLK_STACK_PULL;
      var a := m.PullByte();
      var st := SetNZ(m.l.st, a);
      m.l := m.l.(a := a, st := st);
      m.pc := Advance(m.pc, 1);
    case PLP =>
      var p := m.PullByte();
      m.clk := m.clk + CLK_STACK_PULL;
      var st := SetStatus(p);
      m.l := m.l.(st := st);
      m.pc := Advance(m.pc, 1);
  }

  /** Return address and status, with the break flag set. */
  method BrkPushes(m: Cpu)
    requires m.ram.Length == 0x10000
    modifies m`l, m`bus, m.ram
    ensures var r := R(old(m.l));
            var f, sp := r.f.(b := true), Down(Down(r.sp));
            && m.Mem() == Push(PushWord(old(m.Mem()), r.sp, m.pc), sp, StatusByte(f))
            && R(m.l) == r.(sp := Down(sp), f := f)
  {
    hide F, StatusByte, Push, Down, Lo, Hi;
    var st := SetBreak(m.l.st, true);
    m.l := m.l.(st := st);
    m.PushByte(Hi(m.pc));
    m.PushByte(Lo(m.pc));
    var p := LocalStatus(m.l.st);
    m.PushByte(p);
  }

  method BrkMacro(m: Cpu, ghost s: State)
    requires m.ram.Length == 0x10000 && s == m.St().(clk := s.clk) && m.clk == s.clk + 2
    modifies m`l, m`bus, m`clk, m`pc, m.ram
    ensures m.St() == ExecJump(BRK, 0, 0, s)
  {
    hide Advance, F, StatusByte, Push, Peek, Up, Down, Word, Lo, Hi;
    m.clk := m.clk + CLK_BRK;
    m.pc := Advance(m.pc, 2);
    BrkPushes(m);
    var st := SetInterrupt(m.l.st, true);
    m.l := m.l.(st := st);
    var hi := m.Load(0xffff);
    var lo := m.Load(0xfffe);
    m.pc := Word(lo, hi);
  }

  method JsrMacro(m: Cpu, p1: bv8, ghost s: State)
    requires m.ram.Length == 0x10000 && s == m.St().(clk := s.clk) && m.clk == s.clk + 2
    modifies m`l, m`bus, m`clk, m`pc, m.ram
    ensures m.St() == ExecJump(JSR, p1, 0, s)
  {
    hide Advance, F, Push, Peek, Up, Down, Word, Lo, Hi;
    m.clk := m.clk + 1;
    m.pc := Advance(m.pc, 2);
    m.clk := m.clk + 2;
    m.PushByte(Hi(m.pc));
    m.PushByte(Lo(m.pc));
    var hi := m.Load(m.pc);
    m.clk := m.clk + CLK_JSR_INT_CYCLE;
    m.pc := Word(p1, hi);
  }

  method RtiMacro(m: Cpu, ghost s: State)
    requires m.ram.Length == 0x10000 && s == m.St().(clk := s.clk) && m.clk == s.clk + 2
    modifies m`l, m`bus, m`clk, m`pc
    ensures m.St() == ExecJump(RTI, 0, 0, s)
  {
    hide F, StatusFlags, Peek, StackAddr, Up, Down, Word;
    m.clk := m.clk + CLK_RTI;
    var p := m.PullByte();
    var st := SetStatus(p);
    m.l := m.l.(st := st);
    var lo := m.PullByte();
    var hi := m.PullByte();
    m.pc := Word(lo, hi);
  }

  method RtsMacro(m: Cpu, ghost s: State)
    requires m.ram.Length == 0x10000 && s == m.St().(clk := s.clk) && m.clk == s.clk + 2
    modifies m`l, m`bus, m`clk, m`pc
    ensures m.St() == ExecJump(RTS, 0, 0, s)
  {
    hide F, Peek, StackAddr, Up, Down, Word, Advance;
    m.clk := m.clk + CLK_RTS;
    var lo := m.PullByte();
    var hi := m.PullByte();
    var tmp := Word(lo, hi);
    var dummy := m.Load(tmp);
    m.clk := m.clk + CLK_INT_CYCLE;
    m.pc := Advance(tmp, 1);
  }

  method JmpMacro(m: Cpu, i: Instr, p2: bv16, ghost s: State)
    requires m.ram.Length == 0x10000 && s == m.St().(clk := s.clk) && m.clk == s.clk + 3
    requires i == JMP || i == JMI
    modifies m`bus, m`clk, m`pc
    ensures m.St() == ExecJump(i, 0, p2, s)
  {
    hide F, Peek, Word, Advance;
    if i == JMP {
      m.pc := p2;
    } else {
      var lo := m.Load(p2);
      m.clk := m.clk + 1;
      var hi := m.Load((p2 & 0xff00) | (Advance(p2, 1) & 0xff));
      m.clk := m.clk + 1;
      m.pc := Word(lo, hi);
    }
  }

  // -------------------------------------------------------------------------
  // One invocation, one instruction, a run

  method ExecuteOther(m: Cpu, i: Instr, p1: bv8, p2: bv16, ghost s: State)
    requires m.ram.Length == 0x10000 && s == m.St().(clk := s.clk) && m.clk >= s.clk
    requires Measured(OtherCase(i), m.clk - s.clk) && i != JAM
    modifies m`l, m`bus, m`clk, m`pc, m.ram
    ensures m.St() == Exec(i, p1, p2, s)
  {
    hide F, R, ExecBranch, ExecUnstable, ExecStack, ExecRead, ExecModify, ExecSave;
    match i
    case PHA | PHP | PLA | PLP => PushPullMacro(m, i, s);
    case BRK => BrkMacro(m, s);
    case JSR => JsrMacro(m, p1, s);
    case RTI => RtiMacro(m, s);
    case RTS => RtsMacro(m, s);
    case JMP | JMI => JmpMacro(m, i, p2, s);
  }

  /** Expanding an invocation after the fetch does what its instruction does. */
  method Execute(m: Cpu, c: Case, fetched: nat, p1: bv8, p2: bv16, ghost s: State)
    requires m.ram.Length == 0x10000 && Measured(c, fetched) && Meaning(c) != JAM
    requires s == m.St().(clk := s.clk) && m.clk == s.clk + fetched
    modifies m`l, m`bus, m`clk, m`pc, m.ram
    ensures m.St() == Exec(Meaning(c), p1, p2, s)
  {
    hide F, ExecBranch, ExecUnstable, ExecStack, ExecJump, ReadEffect, ModifyEffect, ImpliedEffect, Advance,
         Poke, Peek, Ea, OperandValue, Crossed, Saved, LoadMode, SaveMode, ModifyMode, LoadClk, IndexClk;
    match c
    case ReadCase(op, e, clk, pc) => ReadMacro(m, op, e, clk, pc, p1, p2);
    case NoopCase(mode, clk, pc) => NoopMacro(m, clk, pc); NoopIsRead(mode, p1, p2, s);
    case SaveCase(op, a, clk1, clk2, pc, f) => SaveMacro(m, op, a, clk1, clk2, pc, f, p1, p2);
    case StaIndY => StaIndYMacro(m, p1, p2);
    case ModifyCase(op, a, clk1, clk2, pc, load, store) => ModifyMacro(m, op, a, clk1, clk2, pc, load, store, p1, p2);
    case ModifyIndY(op) => ModifyIndYMacro(m, op, p1, p2);
    case ShAbs(op, indexX) => ShAbsMacro(m, op, indexX, p1, p2, s);
    case ShaIndY => ShaIndYMacro(m, p1, p2, s);
    case ImpliedCase(op) => m.l := ImpliedBody(op, m.l); m.pc := Advance(m.pc, 1);
    case BranchCase(flag, sense) => BranchMacro(m, flag, sense, p1, s);
    case OtherCase(i) => ExecuteOther(m, i, p1, p2, s);
  }

  /** One pass through the interpreter loop: fetch, then the switch. */
  method Step(m: Cpu)
    requires m.ram.Length == 0x10000 && Decode(Opcode(m.St())) != JAM
    modifies m`l, m`bus, m`clk, m`pc, m.ram
    ensures m.St() == Isa.Step(old(m.St()))
  {
    hide Decode, Switch, Meaning, Measured, Exec, F, Peek, Word, Advance, WordOperand, FetchTab;
    ghost var s := m.St();
    var p0 := m.Load(m.pc);
    var p1 := m.Load(Advance(m.pc, 1));
    var hi := 0;
    m.clk := m.clk + 2;
    if FetchTab(p0) {
      hi := m.Load(Advance(m.pc, 2));
      m.clk := m.clk + 1;
    }
    SwitchAgrees(p0);
    FetchTabIsWordOperand(p0);
    Execute(m, Switch(p0), if FetchTab(p0) then 3 else 2, p1, Word(p1, hi), s);
  }

  /** `n` passes; a JAM opcode keeps the processor where it is. */
  method Run(m: Cpu, n: nat)
    requires m.ram.Length == 0x10000
    modifies m`l, m`bus, m`clk, m`pc, m.ram
    ensures m.St() == Isa.Run(old(m.St()), n)
  {
    hide Decode, Exec, F;
    var k := n;
    while k > 0
      invariant Isa.Run(m.St(), k) == Isa.Run(old(m.St()), n)
    {
      if Decode(Opcode(m.St())) == JAM {
        JamStays(m.St());
      } else {
        Step(m);
      }
      k := k - 1;
    }
  }
}
