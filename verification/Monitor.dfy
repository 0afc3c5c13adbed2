/**
 * The opcode list of the machine code monitor, which disassembles by it and knows nothing of the
 * cores: a mnemonic and an addressing mode for each of the 256 opcodes, and a size for each
 * addressing mode.  It lists exactly the instructions the decoder finds, and the sizes are how
 * far the program counter moves.
 */
module Monitor {
  import Isa

  datatype AddrMode =
    | Implied | Accumulator | Immediate | ZeroPage | ZeroPageX | ZeroPageY | Absolute | AbsoluteX | AbsoluteY
    | AbsIndirect | IndirectX | IndirectY | Relative


  datatype OpcodeInfo = OpcodeInfo(mnemonic: string, addrMode: AddrMode)

  /** Bytes of an instruction, opcode included. */
  function AddrModeSize(m: AddrMode): nat {
    match m
    case Implied => 1
    case Accumulator => 1
    case Immediate => 2
    case ZeroPage => 2
    case ZeroPageX => 2
    case ZeroPageY => 2
    case Absolute => 3
    case AbsoluteX => 3
    case AbsoluteY => 3
    case AbsIndirect => 3
    case IndirectX => 2
    case IndirectY => 2
    case Relative => 2
  }

  function List0(op: bv8): OpcodeInfo {
    if op == 0x00 then OpcodeInfo("BRK", Implied)
    else if op == 0x01 then OpcodeInfo("ORA", IndirectX)
    else if op == 0x02 then OpcodeInfo("JAM", Implied)
    else if op == 0x03 then OpcodeInfo("SLO", IndirectX)
    else if op == 0x04 then OpcodeInfo("NOOP", ZeroPage)
    else if op == 0x05 then OpcodeInfo("ORA", ZeroPage)
    else if op == 0x06 then OpcodeInfo("ASL", ZeroPage)
    else if op == 0x07 then OpcodeInfo("SLO", ZeroPage)
    else if op == 0x08 then OpcodeInfo("PHP", Implied)
    else if op == 0x09 then OpcodeInfo("ORA", Immediate)
    else if op == 0x0a then OpcodeInfo("ASL", Accumulator)
    else if op == 0x0b then OpcodeInfo("ANC", Immediate)
    else if op == 0x0c then OpcodeInfo("NOOP", Absolute)
    else if op == 0x0d then OpcodeInfo("ORA", Absolute)
    else if op == 0x0e then OpcodeInfo("ASL", Absolute)
    else OpcodeInfo("SLO", Absolute)
  }

  function List1(op: bv8): OpcodeInfo {
    if op == 0x10 then OpcodeInfo("BPL", Relative)
    else if op == 0x11 then OpcodeInfo("ORA", IndirectY)
    else if op == 0x12 then OpcodeInfo("JAM", Implied)
    else if op == 0x13 then OpcodeInfo("SLO", IndirectY)
    else if op == 0x14 then OpcodeInfo("NOOP", ZeroPageX)
    else if op == 0x15 then OpcodeInfo("ORA", ZeroPageX)
    else if op == 0x16 then OpcodeInfo("ASL", ZeroPageX)
    else if op == 0x17 then OpcodeInfo("SLO", ZeroPageX)
    else if op == 0x18 then OpcodeInfo("CLC", Implied)
    else if op == 0x19 then OpcodeInfo("ORA", AbsoluteY)
    else if op == 0x1a then OpcodeInfo("NOOP", Implied)
    else if op == 0x1b then OpcodeInfo("SLO", AbsoluteY)
    else if op == 0x1c then OpcodeInfo("NOOP", AbsoluteX)
    else if op == 0x1d then OpcodeInfo("ORA", AbsoluteX)
    else if op == 0x1e then OpcodeInfo("ASL", AbsoluteX)
    else OpcodeInfo("SLO", AbsoluteX)
  }

  function List2(op: bv8): OpcodeInfo {
    if op == 0x20 then OpcodeInfo("JSR", Absolute)
    else if op == 0x21 then OpcodeInfo("AND", IndirectX)
    else if op == 0x22 then OpcodeInfo("JAM", Implied)
    else if op == 0x23 then OpcodeInfo("RLA", IndirectX)
    else if op == 0x24 then OpcodeInfo("BIT", ZeroPage)
    else if op == 0x25 then OpcodeInfo("AND", ZeroPage)
    else if op == 0x26 then OpcodeInfo("ROL", ZeroPage)
    else if op == 0x27 then OpcodeInfo("RLA", ZeroPage)
    else if op == 0x28 then OpcodeInfo("PLP", Implied)
    else if op == 0x29 then OpcodeInfo("AND", Immediate)
    else if op == 0x2a then OpcodeInfo("ROL", Accumulator)
    else if op == 0x2b then OpcodeInfo("ANC", Immediate)
    else if op == 0x2c then OpcodeInfo("BIT", Absolute)
    else if op == 0x2d then OpcodeInfo("AND", Absolute)
    else if op == 0x2e then OpcodeInfo("ROL", Absolute)
    else OpcodeInfo("RLA", Absolute)
  }

  function List3(op: bv8): OpcodeInfo {
    if op == 0x30 then OpcodeInfo("BMI", Relative)
    else if op == 0x31 then OpcodeInfo("AND", IndirectY)
    else if op == 0x32 then OpcodeInfo("JAM", Implied)
    else if op == 0x33 then OpcodeInfo("RLA", IndirectY)
    else if op == 0x34 then OpcodeInfo("NOOP", ZeroPageX)
    else if op == 0x35 then OpcodeInfo("AND", ZeroPageX)
    else if op == 0x36 then OpcodeInfo("ROL", ZeroPageX)
    else if op == 0x37 then OpcodeInfo("RLA", ZeroPageX)
    else if op == 0x38 then OpcodeInfo("SEC", Implied)
    else if op == 0x39 then OpcodeInfo("AND", AbsoluteY)
    else if op == 0x3a then OpcodeInfo("NOOP", Implied)
    else if op == 0x3b then OpcodeInfo("RLA", AbsoluteY)
    else if op == 0x3c then OpcodeInfo("NOOP", AbsoluteX)
    else if op == 0x3d then OpcodeInfo("AND", AbsoluteX)
    else if op == 0x3e then OpcodeInfo("ROL", AbsoluteX)
    else OpcodeInfo("RLA", AbsoluteX)
  }

  function List4(op: bv8): OpcodeInfo {
    if op == 0x40 then OpcodeInfo("RTI", Implied)
    else if op == 0x41 then OpcodeInfo("EOR", IndirectX)
    else if op == 0x42 then OpcodeInfo("JAM", Implied)
    else if op == 0x43 then OpcodeInfo("SRE", IndirectX)
    else if op == 0x44 then OpcodeInfo("NOOP", ZeroPage)
    else if op == 0x45 then OpcodeInfo("EOR", ZeroPage)
    else if op == 0x46 then OpcodeInfo("LSR", ZeroPage)
    else if op == 0x47 then OpcodeInfo("SRE", ZeroPage)
    else if op == 0x48 then OpcodeInfo("PHA", Implied)
    else if op == 0x49 then OpcodeInfo("EOR", Immediate)
    else if op == 0x4a then OpcodeInfo("LSR", Accumulator)
    else if op == 0x4b then OpcodeInfo("ASR", Immediate)
    else if op == 0x4c then OpcodeInfo("JMP", Absolute)
    else if op == 0x4d then OpcodeInfo("EOR", Absolute)
    else if op == 0x4e then OpcodeInfo("LSR", Absolute)
    else OpcodeInfo("SRE", Absolute)
  }

  function List5(op: bv8): OpcodeInfo {
    if op == 0x50 then OpcodeInfo("BVC", Relative)
    else if op == 0x51 then OpcodeInfo("EOR", IndirectY)
    else if op == 0x52 then OpcodeInfo("JAM", Implied)
    else if op == 0x53 then OpcodeInfo("SRE", IndirectY)
    else if op == 0x54 then OpcodeInfo("NOOP", ZeroPageX)
    else if op == 0x55 then OpcodeInfo("EOR", ZeroPageX)
    else if op == 0x56 then OpcodeInfo("LSR", ZeroPageX)
    else if op == 0x57 then OpcodeInfo("SRE", ZeroPageX)
    else if op == 0x58 then OpcodeInfo("CLI", Implied)
    else if op == 0x59 then OpcodeInfo("EOR", AbsoluteY)
    else if op == 0x5a then OpcodeInfo("NOOP", Implied)
    else if op == 0x5b then OpcodeInfo("SRE", AbsoluteY)
    else if op == 0x5c then OpcodeInfo("NOOP", AbsoluteX)
    else if op == 0x5d then OpcodeInfo("EOR", AbsoluteX)
    else if op == 0x5e then OpcodeInfo("LSR", AbsoluteX)
    else OpcodeInfo("SRE", AbsoluteX)
  }

  function List6(op: bv8): OpcodeInfo {
    if op == 0x60 then OpcodeInfo("RTS", Implied)
    else if op == 0x61 then OpcodeInfo("ADC", IndirectX)
    else if op == 0x62 then OpcodeInfo("JAM", Implied)
    else if op == 0x63 then OpcodeInfo("RRA", IndirectX)
    else if op == 0x64 then OpcodeInfo("NOOP", ZeroPage)
    else if op == 0x65 then OpcodeInfo("ADC", ZeroPage)
    else if op == 0x66 then OpcodeInfo("ROR", ZeroPage)
    else if op == 0x67 then OpcodeInfo("RRA", ZeroPage)
    else if op == 0x68 then OpcodeInfo("PLA", Implied)
    else if op == 0x69 then OpcodeInfo("ADC", Immediate)
    else if op == 0x6a then OpcodeInfo("ROR", Accumulator)
    else if op == 0x6b then OpcodeInfo("ARR", Immediate)
    else if op == 0x6c then OpcodeInfo("JMP", AbsIndirect)
    else if op == 0x6d then OpcodeInfo("ADC", Absolute)
    else if op == 0x6e then OpcodeInfo("ROR", Absolute)
    else OpcodeInfo("RRA", Absolute)
  }

  function List7(op: bv8): OpcodeInfo {
    if op == 0x70 then OpcodeInfo("BVS", Relative)
    else if op == 0x71 then OpcodeInfo("ADC", IndirectY)
    else if op == 0x72 then OpcodeInfo("JAM", Implied)
    else if op == 0x73 then OpcodeInfo("RRA", IndirectY)
    else if op == 0x74 then OpcodeInfo("NOOP", ZeroPageX)
    else if op == 0x75 then OpcodeInfo("ADC", ZeroPageX)
    else if op == 0x76 then OpcodeInfo("ROR", ZeroPageX)
    else if op == 0x77 then OpcodeInfo("RRA", ZeroPageX)
    else if op == 0x78 then OpcodeInfo("SEI", Implied)
    else if op == 0x79 then OpcodeInfo("ADC", AbsoluteY)
    else if op == 0x7a then OpcodeInfo("NOOP", Implied)
    else if op == 0x7b then OpcodeInfo("RRA", AbsoluteY)
    else if op == 0x7c then OpcodeInfo("NOOP", AbsoluteX)
    else if op == 0x7d then OpcodeInfo("ADC", AbsoluteX)
    else if op == 0x7e then OpcodeInfo("ROR", AbsoluteX)
    else OpcodeInfo("RRA", AbsoluteX)
  }

  function List8(op: bv8): OpcodeInfo {
    if op == 0x80 then OpcodeInfo("NOOP", Immediate)
    else if op == 0x81 then OpcodeInfo("STA", IndirectX)
    else if op == 0x82 then OpcodeInfo("NOOP", Immediate)
    else if op == 0x83 then OpcodeInfo("SAX", IndirectX)
    else if op == 0x84 then OpcodeInfo("STY", ZeroPage)
    else if op == 0x85 then OpcodeInfo("STA", ZeroPage)
    else if op == 0x86 then OpcodeInfo("STX", ZeroPage)
    else if op == 0x87 then OpcodeInfo("SAX", ZeroPage)
    else if op == 0x88 then OpcodeInfo("DEY", Implied)
    else if op == 0x89 then OpcodeInfo("NOOP", Immediate)
    else if op == 0x8a then OpcodeInfo("TXA", Implied)
    else if op == 0x8b then OpcodeInfo("ANE", Immediate)
    else if op == 0x8c then OpcodeInfo("STY", Absolute)
    else if op == 0x8d then OpcodeInfo("STA", Absolute)
    else if op == 0x8e then OpcodeInfo("STX", Absolute)
    else OpcodeInfo("SAX", Absolute)
  }

  function List9(op: bv8): OpcodeInfo {
    if op == 0x90 then OpcodeInfo("BCC", Relative)
    else if op == 0x91 then OpcodeInfo("STA", IndirectY)
    else if op == 0x92 then OpcodeInfo("JAM", Implied)
    else if op == 0x93 then OpcodeInfo("SHA", IndirectY)
    else if op == 0x94 then OpcodeInfo("STY", ZeroPageX)
    else if op == 0x95 then OpcodeInfo("STA", ZeroPageX)
    else if op == 0x96 then OpcodeInfo("STX", ZeroPageY)
    else if op == 0x97 then OpcodeInfo("SAX", ZeroPageY)
    else if op == 0x98 then OpcodeInfo("TYA", Implied)
    else if op == 0x99 then OpcodeInfo("STA", AbsoluteY)
    else if op == 0x9a then OpcodeInfo("TXS", Implied)
    else if op == 0x9b then OpcodeInfo("SHS", AbsoluteY)
    else if op == 0x9c then OpcodeInfo("SHY", AbsoluteX)
    else if op == 0x9d then OpcodeInfo("STA", AbsoluteX)
    else if op == 0x9e then OpcodeInfo("SHX", AbsoluteY)
    else OpcodeInfo("SHA", AbsoluteY)
  }

  function ListA(op: bv8): OpcodeInfo {
    if op == 0xa0 then OpcodeInfo("LDY", Immediate)
    else if op == 0xa1 then OpcodeInfo("LDA", IndirectX)
    else if op == 0xa2 then OpcodeInfo("LDX", Immediate)
    else if op == 0xa3 then OpcodeInfo("LAX", IndirectX)
    else if op == 0xa4 then OpcodeInfo("LDY", ZeroPage)
    else if op == 0xa5 then OpcodeInfo("LDA", ZeroPage)
    else if op == 0xa6 then OpcodeInfo("LDX", ZeroPage)
    else if op == 0xa7 then OpcodeInfo("LAX", ZeroPage)
    else if op == 0xa8 then OpcodeInfo("TAY", Implied)
    else if op == 0xa9 then OpcodeInfo("LDA", Immediate)
    else if op == 0xaa then OpcodeInfo("TAX", Implied)
    else if op == 0xab then OpcodeInfo("LXA", Immediate)
    else if op == 0xac then OpcodeInfo("LDY", Absolute)
    else if op == 0xad then OpcodeInfo("LDA", Absolute)
    else if op == 0xae then OpcodeInfo("LDX", Absolute)
    else OpcodeInfo("LAX", Absolute)
  }

  function ListB(op: bv8): OpcodeInfo {
    if op == 0xb0 then OpcodeInfo("BCS", Relative)
    else if op == 0xb1 then OpcodeInfo("LDA", IndirectY)
    else if op == 0xb2 then OpcodeInfo("JAM", Implied)
    else if op == 0xb3 then OpcodeInfo("LAX", IndirectY)
    else if op == 0xb4 then OpcodeInfo("LDY", ZeroPageX)
    else if op == 0xb5 then OpcodeInfo("LDA", ZeroPageX)
    else if op == 0xb6 then OpcodeInfo("LDX", ZeroPageY)
    else if op == 0xb7 then OpcodeInfo("LAX", ZeroPageY)
    else if op == 0xb8 then OpcodeInfo("CLV", Implied)
    else if op == 0xb9 then OpcodeInfo("LDA", AbsoluteY)
    else if op == 0xba then OpcodeInfo("TSX", Implied)
    else if op == 0xbb then OpcodeInfo("LAS", AbsoluteY)
    else if op == 0xbc then OpcodeInfo("LDY", AbsoluteX)
    else if op == 0xbd then OpcodeInfo("LDA", AbsoluteX)
    else if op == 0xbe then OpcodeInfo("LDX", AbsoluteY)
    else OpcodeInfo("LAX", AbsoluteY)
  }

  function ListC(op: bv8): OpcodeInfo {
    if op == 0xc0 then OpcodeInfo("CPY", Immediate)
    else if op == 0xc1 then OpcodeInfo("CMP", IndirectX)
    else if op == 0xc2 then OpcodeInfo("NOOP", Immediate)
    else if op == 0xc3 then OpcodeInfo("DCP", IndirectX)
    else if op == 0xc4 then OpcodeInfo("CPY", ZeroPage)
    else if op == 0xc5 then OpcodeInfo("CMP", ZeroPage)
    else if op == 0xc6 then OpcodeInfo("DEC", ZeroPage)
    else if op == 0xc7 then OpcodeInfo("DCP", ZeroPage)
    else if op == 0xc8 then OpcodeInfo("INY", Implied)
    else if op == 0xc9 then OpcodeInfo("CMP", Immediate)
    else if op == 0xca then OpcodeInfo("DEX", Implied)
    else if op == 0xcb then OpcodeInfo("SBX", Immediate)
    else if op == 0xcc then OpcodeInfo("CPY", Absolute)
    else if op == 0xcd then OpcodeInfo("CMP", Absolute)
    else if op == 0xce then OpcodeInfo("DEC", Absolute)
    else OpcodeInfo("DCP", Absolute)
  }

  function ListD(op: bv8): OpcodeInfo {
    if op == 0xd0 then OpcodeInfo("BNE", Relative)
    else if op == 0xd1 then OpcodeInfo("CMP", IndirectY)
    else if op == 0xd2 then OpcodeInfo("JAM", Implied)
    else if op == 0xd3 then OpcodeInfo("DCP", IndirectY)
    else if op == 0xd4 then OpcodeInfo("NOOP", ZeroPageX)
    else if op == 0xd5 then OpcodeInfo("CMP", ZeroPageX)
    else if op == 0xd6 then OpcodeInfo("DEC", ZeroPageX)
    else if op == 0xd7 then OpcodeInfo("DCP", ZeroPageX)
    else if op == 0xd8 then OpcodeInfo("CLD", Implied)
    else if op == 0xd9 then OpcodeInfo("CMP", AbsoluteY)
    else if op == 0xda then OpcodeInfo("NOOP", Implied)
    else if op == 0xdb then OpcodeInfo("DCP", AbsoluteY)
    else if op == 0xdc then OpcodeInfo("NOOP", AbsoluteX)
    else if op == 0xdd then OpcodeInfo("CMP", AbsoluteX)
    else if op == 0xde then OpcodeInfo("DEC", AbsoluteX)
    else OpcodeInfo("DCP", AbsoluteX)
  }

  function ListE(op: bv8): OpcodeInfo {
    if op == 0xe0 then OpcodeInfo("CPX", Immediate)
    else if op == 0xe1 then OpcodeInfo("SBC", IndirectX)
    else if op == 0xe2 then OpcodeInfo("NOOP", Immediate)
    else if op == 0xe3 then OpcodeInfo("ISB", IndirectX)
    else if op == 0xe4 then OpcodeInfo("CPX", ZeroPage)
    else if op == 0xe5 then OpcodeInfo("SBC", ZeroPage)
    else if op == 0xe6 then OpcodeInfo("INC", ZeroPage)
    else if op == 0xe7 then OpcodeInfo("ISB", ZeroPage)
    else if op == 0xe8 then OpcodeInfo("INX", Implied)
    else if op == 0xe9 then OpcodeInfo("SBC", Immediate)
    else if op == 0xea then OpcodeInfo("NOP", Implied)
    else if op == 0xeb then OpcodeInfo("USBC", Immediate)
    else if op == 0xec then OpcodeInfo("CPX", Absolute)
    else if op == 0xed then OpcodeInfo("SBC", Absolute)
    else if op == 0xee then OpcodeInfo("INC", Absolute)
    else OpcodeInfo("ISB", Absolute)
  }

  function ListF(op: bv8): OpcodeInfo {
    if op == 0xf0 then OpcodeInfo("BEQ", Relative)
    else if op == 0xf1 then OpcodeInfo("SBC", IndirectY)
    else if op == 0xf2 then OpcodeInfo("JAM", Implied)
    else if op == 0xf3 then OpcodeInfo("ISB", IndirectY)
    else if op == 0xf4 then OpcodeInfo("NOOP", ZeroPageX)
    else if op == 0xf5 then OpcodeInfo("SBC", ZeroPageX)
    else if op == 0xf6 then OpcodeInfo("INC", ZeroPageX)
    else if op == 0xf7 then OpcodeInfo("ISB", ZeroPageX)
    else if op == 0xf8 then OpcodeInfo("SED", Implied)
    else if op == 0xf9 then OpcodeInfo("SBC", AbsoluteY)
    else if op == 0xfa then OpcodeInfo("NOOP", Implied)
    else if op == 0xfb then OpcodeInfo("ISB", AbsoluteY)
    else if op == 0xfc then OpcodeInfo("NOOP", AbsoluteX)
    else if op == 0xfd then OpcodeInfo("SBC", AbsoluteX)
    else if op == 0xfe then OpcodeInfo("INC", AbsoluteX)
    else OpcodeInfo("ISB", AbsoluteX)
  }

  function OpcodeList(op: bv8): OpcodeInfo {
    if op < 0x80 then
      if op < 0x40 then (if op < 0x20 then (if op < 0x10 then List0(op) else List1(op))
        else if op < 0x30 then List2(op) else List3(op))
      else (if op < 0x60 then (if op < 0x50 then List4(op) else List5(op))
        else if op < 0x70 then List6(op) else List7(op))
    else
      if op < 0xc0 then (if op < 0xa0 then (if op < 0x90 then List8(op) else List9(op))
        else if op < 0xb0 then ListA(op) else ListB(op))
      else (if op < 0xe0 then (if op < 0xd0 then ListC(op) else ListD(op))
        else if op < 0xf0 then ListE(op) else ListF(op))
  }

  // -------------------------------------------------------------------------
  // The instructions by the names the monitor gives them

  function ModeOf(m: Isa.Mode): AddrMode {
    match m
    case Imm => Immediate
    case Zp => ZeroPage
    case ZpX => ZeroPageX
    case ZpY => ZeroPageY
    case Abs => Absolute
    case AbsX => AbsoluteX
    case AbsY => AbsoluteY
    case IndX => IndirectX
    case IndY => IndirectY
  }

  function ReadName(op: Isa.ReadOp): string {
    match op
    case ORA => "ORA"
    case AND => "AND"
    case EOR => "EOR"
    case ADC => "ADC"
    case SBC => "SBC"
    case CMP => "CMP"
    case CPX => "CPX"
    case CPY => "CPY"
    case BIT => "BIT"
    case LDA => "LDA"
    case LDX => "LDX"
    case LDY => "LDY"
    case LAX => "LAX"
    case LAS => "LAS"
    case ANC => "ANC"
    case ASR => "ASR"
    case ARR => "ARR"
    case ANE => "ANE"
    case LXA => "LXA"
    case SBX => "SBX"
    case NOP => "NOOP"
  }

  function SaveName(op: Isa.SaveOp): string {
    match op
    case STA => "STA"
    case STX => "STX"
    case STY => "STY"
    case SAX => "SAX"
  }

  function ModifyName(op: Isa.ModifyOp): string {
    match op
    case ASL => "ASL"
    case ROL => "ROL"
    case LSR => "LSR"
    case ROR => "ROR"
    case DEC => "DEC"
    case INC => "INC"
    case SLO => "SLO"
    case RLA => "RLA"
    case SRE => "SRE"
    case RRA => "RRA"
    case DCP => "DCP"
    case ISB => "ISB"
  }

  function UnstableName(op: Isa.UnstableOp): string {
    match op
    case SHA => "SHA"
    case SHX => "SHX"
    case SHY => "SHY"
    case SHS => "SHS"
  }

  function ImpliedName(op: Isa.ImpliedOp): string {
    match op
    case AslA => "ASL"
    case RolA => "ROL"
    case LsrA => "LSR"
    case RorA => "ROR"
    case TXA => "TXA"
    case TAX => "TAX"
    case TYA => "TYA"
    case TAY => "TAY"
    case TSX => "TSX"
    case TXS => "TXS"
    case DEX => "DEX"
    case DEY => "DEY"
    case INX => "INX"
    case INY => "INY"
    case CLC => "CLC"
    case SEC => "SEC"
    case CLI => "CLI"
    case SEI => "SEI"
    case CLV => "CLV"
    case CLD => "CLD"
    case SED => "SED"
    case NOP1 => "NOOP"
  }

  /** Branches are named after the flag and the value they branch on. */
  function BranchName(flag: bv8, sense: bool): string {
    if flag == 0 then (if sense then "BMI" else "BPL")
    else if flag == 1 then (if sense then "BVS" else "BVC")
    else if flag == 2 then (if sense then "BCS" else "BCC")
    else if sense then "BEQ" else "BNE"
  }

  predicate OnAccumulator(op: Isa.ImpliedOp) {
    op == Isa.AslA || op == Isa.RolA || op == Isa.LsrA || op == Isa.RorA
  }

  function Named(i: Isa.Instr): OpcodeInfo {
    match i
    case Read(op, m) => OpcodeInfo(ReadName(op), ModeOf(m))
    case Save(op, m) => OpcodeInfo(SaveName(op), ModeOf(m))
    case Modify(op, m) => OpcodeInfo(ModifyName(op), ModeOf(m))
    case Unstable(op, m) => OpcodeInfo(UnstableName(op), ModeOf(m))
    case Implied(op) => OpcodeInfo(ImpliedName(op), if OnAccumulator(op) then Accumulator else AddrMode.Implied)
    case Branch(flag, sense) => OpcodeInfo(BranchName(flag, sense), Relative)
    case PHA => OpcodeInfo("PHA", AddrMode.Implied)
    case PHP => OpcodeInfo("PHP", AddrMode.Implied)
    case PLA => OpcodeInfo("PLA", AddrMode.Implied)
    case PLP => OpcodeInfo("PLP", AddrMode.Implied)
    case BRK => OpcodeInfo("BRK", AddrMode.Implied)
    case JSR => OpcodeInfo("JSR", Absolute)
    case RTI => OpcodeInfo("RTI", AddrMode.Implied)
    case RTS => OpcodeInfo("RTS", AddrMode.Implied)
    case JMP => OpcodeInfo("JMP", Absolute)
    case JMI => OpcodeInfo("JMP", AbsIndirect)
    case JAM => OpcodeInfo("JAM", AddrMode.Implied)
  }

  /** The list has two names for the idle instructions and two for subtraction. */
  predicate SameName(listed: string, named: string) {
    listed == named || (listed == "NOP" && named == "NOOP") || (listed == "USBC" && named == "SBC")
  }

  predicate Agrees(info: OpcodeInfo, i: Isa.Instr) {
    SameName(info.mnemonic, Named(i).mnemonic) && info.addrMode == Named(i).addrMode
  }

  lemma Lists0L(op: bv8)
    requires 0x00 <= op <= 0x07
    ensures Agrees(List0(op), Isa.Decode(op))
  {}

  lemma Lists0R(op: bv8)
    requires 0x08 <= op <= 0x0f
    ensures Agrees(List0(op), Isa.Decode(op))
  {}

  lemma Lists1L(op: bv8)
    requires 0x10 <= op <= 0x17
    ensures Agrees(List1(op), Isa.Decode(op))
  {}

  lemma Lists1R(op: bv8)
    requires 0x18 <= op <= 0x1f
    ensures Agrees(List1(op), Isa.Decode(op))
  {}

  lemma Lists2L(op: bv8)
    requires 0x20 <= op <= 0x27
    ensures Agrees(List2(op), Isa.Decode(op))
  {}

  lemma Lists2R(op: bv8)
    requires 0x28 <= op <= 0x2f
    ensures Agrees(List2(op), Isa.Decode(op))
  {}

  lemma Lists3L(op: bv8)
    requires 0x30 <= op <= 0x37
    ensures Agrees(List3(op), Isa.Decode(op))
  {}

  lemma Lists3R(op: bv8)
    requires 0x38 <= op <= 0x3f
    ensures Agrees(List3(op), Isa.Decode(op))
  {}

  lemma Lists4L(op: bv8)
    requires 0x40 <= op <= 0x47
    ensures Agrees(List4(op), Isa.Decode(op))
  {}

  lemma Lists4R(op: bv8)
    requires 0x48 <= op <= 0x4f
    ensures Agrees(List4(op), Isa.Decode(op))
  {}

  lemma Lists5L(op: bv8)
    requires 0x50 <= op <= 0x57
    ensures Agrees(List5(op), Isa.Decode(op))
  {}

  lemma Lists5R(op: bv8)
    requires 0x58 <= op <= 0x5f
    ensures Agrees(List5(op), Isa.Decode(op))
  {}

  lemma Lists6L(op: bv8)
    requires 0x60 <= op <= 0x67
    ensures Agrees(List6(op), Isa.Decode(op))
  {}

  lemma Lists6R(op: bv8)
    requires 0x68 <= op <= 0x6f
    ensures Agrees(List6(op), Isa.Decode(op))
  {}

  lemma Lists7L(op: bv8)
    requires 0x70 <= op <= 0x77
    ensures Agrees(List7(op), Isa.Decode(op))
  {}

  lemma Lists7R(op: bv8)
    requires 0x78 <= op <= 0x7f
    ensures Agrees(List7(op), Isa.Decode(op))
  {}

  lemma Lists8L(op: bv8)
    requires 0x80 <= op <= 0x87
    ensures Agrees(List8(op), Isa.Decode(op))
  {}

  lemma Lists8R(op: bv8)
    requires 0x88 <= op <= 0x8f
    ensures Agrees(List8(op), Isa.Decode(op))
  {}

  lemma Lists9L(op: bv8)
    requires 0x90 <= op <= 0x97
    ensures Agrees(List9(op), Isa.Decode(op))
  {}

  lemma Lists9R(op: bv8)
    requires 0x98 <= op <= 0x9f
    ensures Agrees(List9(op), Isa.Decode(op))
  {}

  lemma ListsAL(op: bv8)
    requires 0xa0 <= op <= 0xa7
    ensures Agrees(ListA(op), Isa.Decode(op))
  {}

  lemma ListsAR(op: bv8)
    requires 0xa8 <= op <= 0xaf
    ensures Agrees(ListA(op), Isa.Decode(op))
  {}

  lemma ListsBL(op: bv8)
    requires 0xb0 <= op <= 0xb7
    ensures Agrees(ListB(op), Isa.Decode(op))
  {}

  lemma ListsBR(op: bv8)
    requires 0xb8 <= op <= 0xbf
    ensures Agrees(ListB(op), Isa.Decode(op))
  {}

  lemma ListsCL(op: bv8)
    requires 0xc0 <= op <= 0xc7
    ensures Agrees(ListC(op), Isa.Decode(op))
  {}

  lemma ListsCR(op: bv8)
    requires 0xc8 <= op <= 0xcf
    ensures Agrees(ListC(op), Isa.Decode(op))
  {}

  lemma ListsDL(op: bv8)
    requires 0xd0 <= op <= 0xd7
    ensures Agrees(ListD(op), Isa.Decode(op))
  {}

  lemma ListsDR(op: bv8)
    requires 0xd8 <= op <= 0xdf
    ensures Agrees(ListD(op), Isa.Decode(op))
  {}

  lemma ListsEL(op: bv8)
    requires 0xe0 <= op <= 0xe7
    ensures Agrees(ListE(op), Isa.Decode(op))
  {}

  lemma ListsER(op: bv8)
    requires 0xe8 <= op <= 0xef
    ensures Agrees(ListE(op), Isa.Decode(op))
  {}

  lemma ListsFL(op: bv8)
    requires 0xf0 <= op <= 0xf7
    ensures Agrees(ListF(op), Isa.Decode(op))
  {}

  lemma ListsFR(op: bv8)
    requires 0xf8 <= op <= 0xff
    ensures Agrees(ListF(op), Isa.Decode(op))
  {}

  /** Every opcode is decoded as the list has it. */
  lemma ListAgrees(op: bv8)
    ensures Agrees(OpcodeList(op), Isa.Decode(op))
  {
    hide Agrees, Isa.Decode;
    if op < 0x80 {
      if op < 0x40 {
        if op < 0x20 {
          if op < 0x10 {
            if op < 0x08 {
              Lists0L(op);
            } else {
              Lists0R(op);
            }
          } else {
            if op < 0x18 {
              Lists1L(op);
            } else {
              Lists1R(op);
            }
          }
        } else {
          if op < 0x30 {
            if op < 0x28 {
              Lists2L(op);
            } else {
              Lists2R(op);
            }
          } else {
            if op < 0x38 {
              Lists3L(op);
            } else {
              Lists3R(op);
            }
          }
        }
      } else {
        if op < 0x60 {
          if op < 0x50 {
            if op < 0x48 {
              Lists4L(op);
            } else {
              Lists4R(op);
            }
          } else {
            if op < 0x58 {
              Lists5L(op);
            } else {
              Lists5R(op);
            }
          }
        } else {
          if op < 0x70 {
            if op < 0x68 {
              Lists6L(op);
            } else {
              Lists6R(op);
            }
          } else {
            if op < 0x78 {
              Lists7L(op);
            } else {
              Lists7R(op);
            }
          }
        }
      }
    } else {
      if op < 0xc0 {
        if op < 0xa0 {
          if op < 0x90 {
            if op < 0x88 {
              Lists8L(op);
            } else {
              Lists8R(op);
            }
          } else {
            if op < 0x98 {
              Lists9L(op);
            } else {
              Lists9R(op);
            }
          }
        } else {
          if op < 0xb0 {
            if op < 0xa8 {
              ListsAL(op);
            } else {
              ListsAR(op);
            }
          } else {
            if op < 0xb8 {
              ListsBL(op);
            } else {
              ListsBR(op);
            }
          }
        }
      } else {
        if op < 0xe0 {
          if op < 0xd0 {
            if op < 0xc8 {
              ListsCL(op);
            } else {
              ListsCR(op);
            }
          } else {
            if op < 0xd8 {
              ListsDL(op);
            } else {
              ListsDR(op);
            }
          }
        } else {
          if op < 0xf0 {
            if op < 0xe8 {
              ListsEL(op);
            } else {
              ListsER(op);
            }
          } else {
            if op < 0xf8 {
              ListsFL(op);
            } else {
              ListsFR(op);
            }
          }
        }
      }
    }
  }
}
