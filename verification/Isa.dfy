/**
 * The instruction set of the 6510 as a programmer sees it: a register file with boolean
 * flags, 64 KB of memory, a decoder built from the bit fields of the opcode, one effect per
 * operation and one cycle count per kind of access and addressing mode.
 *
 * Neither emulator core is written this way.  Both are proved to compute `Step`.
 */
module Isa {

  type Ram = m: seq<bv8> | |m| == 0x10000 witness seq(0x10000, i => 0)

  datatype Flags = Flags(n: bool, v: bool, b: bool, d: bool, i: bool, z: bool, c: bool)

  datatype Regs = Regs(a: bv8, x: bv8, y: bv8, sp: bv8, f: Flags)

  datatype State = State(r: Regs, pc: bv16, clk: nat, mem: Ram)

  function Index(addr: bv16): (i: nat)
    ensures i < 0x10000
  {
    addr as int
  }

  function Peek(m: Ram, addr: bv16): bv8 {
    m[Index(addr)]
  }

  function Poke(m: Ram, addr: bv16, v: bv8): Ram {
    m[Index(addr) := v]
  }

  function Word(lo: bv8, hi: bv8): bv16 {
    lo as bv16 | ((hi as bv16) << 8)
  }

  function Lo(w: bv16): bv8 {
    (w & 0xff) as bv8
  }

  function Hi(w: bv16): bv8 {
    (w >> 8) as bv8
  }

  // -------------------------------------------------------------------------
  // Instructions

  datatype Mode = Imm | Zp | ZpX | ZpY | Abs | AbsX | AbsY | IndX | IndY

  /** Operations that read an operand and change registers only. */
  datatype ReadOp =
    | ORA | AND | EOR | ADC | SBC | CMP | CPX | CPY | BIT | LDA | LDX | LDY | LAX | LAS | NOP
    | ANC | ASR | ARR | ANE | LXA | SBX

  datatype SaveOp = STA | STX | STY | SAX

  datatype ModifyOp = ASL | ROL | LSR | ROR | DEC | INC | SLO | RLA | SRE | RRA | DCP | ISB

  datatype ImpliedOp =
    | AslA | RolA | LsrA | RorA | TXA | TAX | TYA | TAY | TSX | TXS | DEX | DEY | INX | INY
    | CLC | SEC | CLI | SEI | CLV | CLD | SED | NOP1

  datatype UnstableOp = SHA | SHX | SHY | SHS

  datatype Instr =
    | Read(rop: ReadOp, rmode: Mode)
    | Save(sop: SaveOp, smode: Mode)
    | Modify(mop: ModifyOp, mmode: Mode)
    | Unstable(uop: UnstableOp, umode: Mode)
    | Implied(iop: ImpliedOp)
    | Branch(flag: bv8, sense: bool)
    | PHA | PHP | PLA | PLP | BRK | JSR | RTI | RTS | JMP | JMI
    | JAM

  // -------------------------------------------------------------------------
  // Decoding: the opcode is aaabbbcc.

  function Decode(op: bv8): Instr {
    var cc := op & 3;
    var aaa := op >> 5;
    var bbb := (op >> 2) & 7;
    if cc == 0 then DecodeControl(aaa, bbb)
    else if cc == 1 then DecodeAccu(aaa, bbb)
    else if cc == 2 then DecodeShift(aaa, bbb)
    else DecodeCombined(aaa, bbb)
  }

  function AccuOp(aaa: bv8): ReadOp {
    if aaa == 0 then ORA else if aaa == 1 then AND else if aaa == 2 then EOR else if aaa == 3 then ADC
    else if aaa == 5 then LDA else if aaa == 6 then CMP else SBC
  }

  function ShiftOp(aaa: bv8): ModifyOp {
    if aaa == 0 then ASL else if aaa == 1 then ROL else if aaa == 2 then LSR else if aaa == 3 then ROR
    else if aaa == 6 then DEC else INC
  }

  /** The undocumented operations that do a shift column operation and then an accumulator one. */
  function CombinedOp(aaa: bv8): ModifyOp {
    if aaa == 0 then SLO else if aaa == 1 then RLA else if aaa == 2 then SRE else if aaa == 3 then RRA
    else if aaa == 6 then DCP else ISB
  }

  function IndexOp(aaa: bv8): ReadOp {
    if aaa == 5 then LDY else if aaa == 6 then CPY else if aaa == 7 then CPX else NOP
  }

  function DecodeAccu(aaa: bv8, bbb: bv8): Instr {
    var mode := if bbb == 0 then IndX else if bbb == 1 then Zp else if bbb == 2 then Imm else if bbb == 3 then Abs
                else if bbb == 4 then IndY else if bbb == 5 then ZpX else if bbb == 6 then AbsY else AbsX;
    if aaa != 4 then Read(AccuOp(aaa), mode)
    else if mode == Imm then Read(NOP, Imm)
    else Save(STA, mode)
  }

  function DecodeShift(aaa: bv8, bbb: bv8): Instr {
    if bbb == 0 then
      if aaa < 4 then JAM else Read(if aaa == 5 then LDX else NOP, Imm)
    else if bbb == 4 then JAM
    else if bbb == 2 then
      Implied(if aaa == 0 then AslA else if aaa == 1 then RolA else if aaa == 2 then LsrA else if aaa == 3 then RorA
              else if aaa == 4 then TXA else if aaa == 5 then TAX else if aaa == 6 then DEX else NOP1)
    else if bbb == 6 then
      Implied(if aaa == 4 then TXS else if aaa == 5 then TSX else NOP1)
    else
      var mode := if bbb == 1 then Zp else if bbb == 3 then Abs
                  else if bbb == 5 then (if aaa == 4 || aaa == 5 then ZpY else ZpX)
                  else (if aaa == 4 || aaa == 5 then AbsY else AbsX);
      if aaa == 4 then (if mode == AbsY then Unstable(SHX, AbsY) else Save(STX, mode))
      else if aaa == 5 then Read(LDX, mode)
      else Modify(ShiftOp(aaa), mode)
  }

  function DecodeCombined(aaa: bv8, bbb: bv8): Instr {
    if bbb == 2 then
      Read(if aaa <= 1 then ANC else if aaa == 2 then ASR else if aaa == 3 then ARR else if aaa == 4 then ANE
           else if aaa == 5 then LXA else if aaa == 6 then SBX else SBC, Imm)
    else
      var mode := if bbb == 0 then IndX else if bbb == 1 then Zp else if bbb == 3 then Abs else if bbb == 4 then IndY
                  else if bbb == 5 then (if aaa == 4 || aaa == 5 then ZpY else ZpX)
                  else if bbb == 6 then AbsY
                  else (if aaa == 4 || aaa == 5 then AbsY else AbsX);
      if aaa == 4 then
        if bbb == 6 then Unstable(SHS, AbsY)
        else if bbb == 4 || bbb == 7 then Unstable(SHA, mode)
        else Save(SAX, mode)
      else if aaa == 5 then Read(if bbb == 6 then LAS else LAX, mode)
      else Modify(CombinedOp(aaa), mode)
  }

  function DecodeControl(aaa: bv8, bbb: bv8): Instr {
    if bbb == 0 then
      if aaa == 0 then BRK else if aaa == 1 then JSR else if aaa == 2 then RTI else if aaa == 3 then RTS
      else Read(IndexOp(aaa), Imm)
    else if bbb == 2 then
      if aaa == 0 then PHP else if aaa == 1 then PLP else if aaa == 2 then PHA else if aaa == 3 then PLA
      else Implied(if aaa == 4 then DEY else if aaa == 5 then TAY else if aaa == 6 then INY else INX)
    else if bbb == 4 then Branch(aaa >> 1, aaa & 1 == 1)
    else if bbb == 6 then
      Implied(if aaa == 0 then CLC else if aaa == 1 then SEC else if aaa == 2 then CLI else if aaa == 3 then SEI
              else if aaa == 4 then TYA else if aaa == 5 then CLV else if aaa == 6 then CLD else SED)
    else if bbb == 5 then
      if aaa == 4 then Save(STY, ZpX) else Read(if aaa == 5 then LDY else NOP, ZpX)
    else if bbb == 7 then
      if aaa == 4 then Unstable(SHY, AbsX) else Read(if aaa == 5 then LDY else NOP, AbsX)
    else
      var mode := if bbb == 1 then Zp else Abs;
      if aaa == 4 then Save(STY, mode)
      else if aaa == 1 then Read(BIT, mode)
      else if mode == Abs && aaa == 2 then JMP
      else if mode == Abs && aaa == 3 then JMI
      else Read(IndexOp(aaa), mode)
  }

  predicate WordMode(m: Mode) {
    m == Abs || m == AbsX || m == AbsY
  }

  /** Both operand bytes are fetched before execution starts.  JSR fetches its second one late. */
  predicate WordOperand(i: Instr) {
    match i
    case Read(_, m) => WordMode(m)
    case Save(_, m) => WordMode(m)
    case Modify(_, m) => WordMode(m)
    case Unstable(_, m) => WordMode(m)
    case JMP => true
    case JMI => true
    case _ => false
  }

  // -------------------------------------------------------------------------
  // Effective addresses and time

  /** Addresses are sixteen bits wide. */
  function Indexed(addr: bv16, index: bv8): bv16 {
    addr + index as bv16
  }

  function Advance(pc: bv16, n: bv16): bv16 {
    pc + n
  }

  /** The zero page wraps around. */
  function ZeroIndexed(p1: bv8, index: bv8): bv16 {
    (p1 + index) as bv16
  }

  function ZWord(m: Ram, z: bv16): bv16 {
    Word(Peek(m, z), Peek(m, (z + 1) & 0xff))
  }

  function Ea(mode: Mode, r: Regs, p1: bv8, p2: bv16, m: Ram): bv16 {
    match mode
    case Imm => 0
    case Zp => p1 as bv16
    case ZpX => ZeroIndexed(p1, r.x)
    case ZpY => ZeroIndexed(p1, r.y)
    case Abs => p2
    case AbsX => Indexed(p2, r.x)
    case AbsY => Indexed(p2, r.y)
    case IndX => ZWord(m, ZeroIndexed(p1, r.x))
    case IndY => Indexed(ZWord(m, p1 as bv16), r.y)
  }

  /** The address before the index register is added to it, for the modes that may leave the page. */
  function Base(mode: Mode, p1: bv8, p2: bv16, m: Ram): bv16 {
    if mode == IndY then ZWord(m, p1 as bv16) else p2
  }

  predicate SamePage(a: bv16, b: bv16) {
    a & 0xff00 == b & 0xff00
  }

  predicate Crossed(mode: Mode, r: Regs, p1: bv8, p2: bv16, m: Ram) {
    (mode == AbsX || mode == AbsY || mode == IndY) &&
    !SamePage(Base(mode, p1, p2, m), Ea(mode, r, p1, p2, m))
  }

  function OperandValue(mode: Mode, r: Regs, p1: bv8, p2: bv16, m: Ram): bv8 {
    if mode == Imm then p1 else Peek(m, Ea(mode, r, p1, p2, m))
  }

  function ModeLength(mode: Mode): bv16 {
    if WordMode(mode) then 3 else 2
  }

  function ReadCycles(mode: Mode, crossed: bool): nat {
    match mode
    case Imm => 2
    case Zp => 3
    case ZpX => 4
    case ZpY => 4
    case Abs => 4
    case AbsX => if crossed then 5 else 4
    case AbsY => if crossed then 5 else 4
    case IndX => 6
    case IndY => if crossed then 6 else 5
  }

  /** A store always takes the cycle that corrects the page. */
  function SaveCycles(mode: Mode): nat {
    ReadCycles(mode, true)
  }

  /** Reading, writing the old value back and writing the new one. */
  function ModifyCycles(mode: Mode): nat {
    ReadCycles(mode, true) + 2
  }

  // -------------------------------------------------------------------------
  // Effects on registers

  function WithNZ(f: Flags, v: bv8): Flags {
    f.(n := Neg(v), z := v == 0)
  }

  predicate Neg(v: bv8) {
    v >= 0x80
  }

  function CarryIn(f: Flags): bv16 {
    if f.c then 1 else 0
  }

  function Bit(b: bool, mask: bv8): bv8 {
    if b then mask else 0
  }

  datatype Sum = Sum(value: bv8, flags: Flags)

  function Total(a: bv8, v: bv8, carry: bv16): bv16 {
    a as bv16 + v as bv16 + carry
  }

  function Difference(a: bv8, v: bv8, borrow: bv16): bv16 {
    a as bv16 - v as bv16 - borrow
  }

  /** Binary addition: carry out of bit 7, overflow when equal signs give the other sign. */
  function AddBinary(a: bv8, v: bv8, carry: bv16, f: Flags): Sum {
    var sum := Total(a, v, carry);
    var r := Lo(sum);
    Sum(r, WithNZ(f, r).(c := sum > 0xff, v := Neg(a) == Neg(v) && Neg(r) != Neg(a)))
  }

  function RawLow(a: bv8, v: bv8, carry: bv16): bv16 {
    (a & 0xf) as bv16 + (v & 0xf) as bv16 + carry
  }

  function RawDigit(low: bv16): bv16 {
    if low >= 10 then ((low + 6) & 0xf) + 0x10 else low
  }

  function RawSum(a: bv8, v: bv8, digit: bv16): bv16 {
    (a & 0xf0) as bv16 + (v & 0xf0) as bv16 + digit
  }

  /** Decimal addition before the upper digit is corrected. */
  function RawDecimal(a: bv8, v: bv8, carry: bv16): bv16 {
    RawSum(a, v, RawDigit(RawLow(a, v, carry)))
  }

  function Corrected(raw: bv16): bv16 {
    if raw >= 0xa0 then raw + 0x60 else raw
  }

  /** The NMOS decimal addition: N and V are taken before the correction, Z from the binary sum. */
  function AddDecimal(a: bv8, v: bv8, carry: bv16, f: Flags): Sum {
    var raw := RawDecimal(a, v, carry);
    Sum(Lo(Corrected(raw)),
        f.(n := Neg(Lo(raw)), z := Lo(Total(a, v, carry)) == 0, c := Corrected(raw) > 0xff,
           v := Neg(a) == Neg(v) && Neg(Lo(raw)) != Neg(a)))
  }

  function BorrowIn(f: Flags): bv16 {
    if f.c then 0 else 1
  }

  /** Subtraction with borrow; all flags are those of the binary difference, also in decimal mode. */
  function SubBinary(a: bv8, v: bv8, borrow: bv16, f: Flags): Sum {
    var r := Lo(Difference(a, v, borrow));
    Sum(r, WithNZ(f, r).(c := a as bv16 >= v as bv16 + borrow, v := Neg(a) != Neg(v) && Neg(r) != Neg(a)))
  }

  /** One decimal digit of a difference: add ten when it borrows. */
  function DigitDifference(a: bv8, v: bv8): bv8 {
    if a < v then a + 10 - v else a - v
  }

  function LowTake(v: bv8, borrow: bv8): bv8 {
    (v & 0xf) + borrow
  }

  function HighTake(v: bv8, borrowed: bool): bv8 {
    if borrowed then (v >> 4) + 1 else v >> 4
  }

  function TwoDigits(lo: bv8, hi: bv8): bv8 {
    (lo & 0xf) | (hi << 4)
  }

  predicate LowBorrows(a: bv8, v: bv8, borrow: bv8) {
    a & 0xf < LowTake(v, borrow)
  }

  function SubDecimal(a: bv8, v: bv8, borrow: bv8): bv8 {
    TwoDigits(DigitDifference(a & 0xf, LowTake(v, borrow)),
              DigitDifference(a >> 4, HighTake(v, LowBorrows(a, v, borrow))))
  }

  function Minus(a: bv8, v: bv8): bv8 {
    a - v
  }

  function Compare(f: Flags, a: bv8, v: bv8): Flags {
    WithNZ(f, Minus(a, v)).(c := a >= v)
  }

  function Rotated(t: bv8, carry: bv8): bv8 {
    (t >> 1) | carry
  }

  /** AND, rotate right and correct each digit; `q` is the rotated value. */
  function ArrDecimal(t: bv8, q: bv8, r: Regs): Regs {
    var lo := if (t & 0xf) + (t & 1) > 5 then (q + 6) & 0xf else q & 0xf;
    var carry := (t & 0xf0) as bv16 + (t & 0x10) as bv16 > 0x50;
    var hi := if carry then (q + 0x60) & 0xf0 else q & 0xf0;
    r.(a := hi | lo, f := r.f.(n := r.f.c, z := q == 0, v := (q ^ t) & 0x40 != 0, c := carry))
  }

  function ArrBinary(q: bv8, r: Regs): Regs {
    r.(a := q, f := WithNZ(r.f, q).(c := q & 0x40 != 0, v := (q & 0x40 != 0) != (q & 0x20 != 0)))
  }

  function WithA(r: Regs, v: bv8): Regs {
    r.(a := v, f := WithNZ(r.f, v))
  }

  function WithX(r: Regs, v: bv8): Regs {
    r.(x := v, f := WithNZ(r.f, v))
  }

  function WithY(r: Regs, v: bv8): Regs {
    r.(y := v, f := WithNZ(r.f, v))
  }

  function WithCarry(r: Regs, c: bool): Regs {
    r.(f := r.f.(c := c))
  }

  function Add(r: Regs, v: bv8): Regs {
    var s := if r.f.d then AddDecimal(r.a, v, CarryIn(r.f), r.f) else AddBinary(r.a, v, CarryIn(r.f), r.f);
    r.(a := s.value, f := s.flags)
  }

  function Subtract(r: Regs, v: bv8): Regs {
    var s := SubBinary(r.a, v, BorrowIn(r.f), r.f);
    r.(a := if r.f.d then SubDecimal(r.a, v, Bit(!r.f.c, 1)) else s.value, f := s.flags)
  }

  function AndRotate(r: Regs, v: bv8): Regs {
    var q := Rotated(r.a & v, Bit(r.f.c, 0x80));
    if r.f.d then ArrDecimal(r.a & v, q, r) else ArrBinary(q, r)
  }

  function TestBits(r: Regs, v: bv8): Regs {
    r.(f := r.f.(n := Neg(v), v := v & 0x40 != 0, z := v & r.a == 0))
  }

  function ReadEffect(op: ReadOp, r: Regs, v: bv8): Regs {
    match op
    case ORA => WithA(r, r.a | v)
    case AND => WithA(r, r.a & v)
    case EOR => WithA(r, r.a ^ v)
    case ADC => Add(r, v)
    case SBC => Subtract(r, v)
    case CMP => r.(f := Compare(r.f, r.a, v))
    case CPX => r.(f := Compare(r.f, r.x, v))
    case CPY => r.(f := Compare(r.f, r.y, v))
    case BIT => TestBits(r, v)
    case LDA => WithA(r, v)
    case LDX => WithX(r, v)
    case LDY => WithY(r, v)
    case LAX => WithA(r.(x := v), v)
    case LAS => WithA(r.(x := r.sp & v, sp := r.sp & v), r.sp & v)
    case NOP => r
    case ANC => WithCarry(WithA(r, r.a & v), Neg(r.a & v))
    case ASR => WithA(WithCarry(r, r.a & v & 1 != 0), (r.a & v) >> 1)
    case ARR => AndRotate(r, v)
    case ANE => WithA(r, (r.a | 0xee) & r.x & v)
    case LXA => WithA(r.(x := (r.a | 0xee) & v), (r.a | 0xee) & v)
    case SBX => r.(x := Minus(r.a & r.x, v), f := Compare(r.f, r.a & r.x, v))
  }

  function Saved(op: SaveOp, r: Regs): bv8 {
    match op
    case STA => r.a
    case STX => r.x
    case STY => r.y
    case SAX => r.a & r.x
  }

  datatype Result = Result(value: bv8, regs: Regs)

  /** The documented operations: the value written back and the registers afterwards. */
  function ShiftEffect(op: ModifyOp, r: Regs, v: bv8): Result {
    match op
    case ASL => Shifted(r, v << 1, Neg(v))
    case ROL => Shifted(r, (v << 1) | Bit(r.f.c, 1), Neg(v))
    case LSR => Shifted(r, v >> 1, v & 1 != 0)
    case ROR => Shifted(r, Rotated(v, Bit(r.f.c, 0x80)), v & 1 != 0)
    case DEC => Shifted(r, v - 1, r.f.c)
    case _ => Shifted(r, v + 1, r.f.c)
  }

  function ShiftedRegs(r: Regs, w: bv8, carry: bool): Regs {
    r.(f := WithNZ(r.f, w).(c := carry))
  }

  function Shifted(r: Regs, w: bv8, carry: bool): Result {
    Result(w, ShiftedRegs(r, w, carry))
  }

  function Then(first: Result, op: ReadOp): Result {
    Result(first.value, ReadEffect(op, first.regs, first.value))
  }

  /** The undocumented operations are a documented one followed by an accumulator operation on its result. */
  function ModifyEffect(op: ModifyOp, r: Regs, v: bv8): Result {
    match op
    case SLO => Then(ShiftEffect(ASL, r, v), ORA)
    case RLA => Then(ShiftEffect(ROL, r, v), AND)
    case SRE => Then(ShiftEffect(LSR, r, v), EOR)
    case RRA => Then(ShiftEffect(ROR, r, v), ADC)
    case DCP => Then(ShiftEffect(DEC, r, v), CMP)
    case ISB => Then(ShiftEffect(INC, r, v), SBC)
    case _ => ShiftEffect(op, r, v)
  }

  function OnAccu(m: Result): Regs {
    m.regs.(a := m.value)
  }

  function ImpliedEffect(op: ImpliedOp, r: Regs): Regs {
    match op
    case AslA => OnAccu(ShiftEffect(ASL, r, r.a))
    case RolA => OnAccu(ShiftEffect(ROL, r, r.a))
    case LsrA => OnAccu(ShiftEffect(LSR, r, r.a))
    case RorA => OnAccu(ShiftEffect(ROR, r, r.a))
    case TXA => WithA(r, r.x)
    case TYA => WithA(r, r.y)
    case TAX => WithX(r, r.a)
    case TAY => WithY(r, r.a)
    case TSX => WithX(r, r.sp)
    case TXS => r.(sp := r.x)
    case DEX => WithX(r, r.x - 1)
    case DEY => WithY(r, r.y - 1)
    case INX => WithX(r, r.x + 1)
    case INY => WithY(r, r.y + 1)
    case CLC => WithCarry(r, false)
    case SEC => WithCarry(r, true)
    case CLI => r.(f := r.f.(i := false))
    case SEI => r.(f := r.f.(i := true))
    case CLV => r.(f := r.f.(v := false))
    case CLD => r.(f := r.f.(d := false))
    case SED => r.(f := r.f.(d := true))
    case NOP1 => r
  }

  // -------------------------------------------------------------------------
  // The status byte and the stack

  /** The byte PHP and BRK push; bit 5 always reads as 1. */
  function StatusByte(f: Flags): bv8 {
    Bit(f.n, 0x80) | Bit(f.v, 0x40) | 0x20 | Bit(f.b, 0x10) | Bit(f.d, 8) | Bit(f.i, 4) | Bit(f.z, 2) | Bit(f.c, 1)
  }

  function StatusFlags(s: bv8): Flags {
    Flags(s & 0x80 != 0, s & 0x40 != 0, s & 0x10 != 0, s & 8 != 0, s & 4 != 0, s & 2 != 0, s & 1 != 0)
  }

  function StackAddr(sp: bv8): bv16 {
    0x100 + sp as bv16
  }

  function Down(sp: bv8): bv8 {
    sp - 1
  }

  function Up(sp: bv8): bv8 {
    sp + 1
  }

  function Push(m: Ram, sp: bv8, v: bv8): Ram {
    Poke(m, StackAddr(sp), v)
  }

  function PushWord(m: Ram, sp: bv8, w: bv16): Ram {
    Push(Push(m, sp, Hi(w)), Down(sp), Lo(w))
  }

  function PullWord(m: Ram, sp: bv8): bv16 {
    Word(Peek(m, StackAddr(Up(sp))), Peek(m, StackAddr(Up(Up(sp)))))
  }

  // -------------------------------------------------------------------------
  // Execution

  function SignExtend(v: bv8): bv16 {
    if Neg(v) then 0xff00 | v as bv16 else v as bv16
  }

  predicate Taken(flag: bv8, sense: bool, f: Flags) {
    sense == (if flag == 0 then f.n else if flag == 1 then f.v else if flag == 2 then f.c else f.z)
  }

  function UnstableValue(source: bv8, addr: bv16): bv8 {
    source & (Hi(addr) + 1)
  }

  function UnstableSource(op: UnstableOp, r: Regs): bv8 {
    match op
    case SHX => r.x
    case SHY => r.y
    case SHA => r.a & r.x
    case SHS => r.a & r.x
  }

  function ExecRead(op: ReadOp, mode: Mode, p1: bv8, p2: bv16, s: State): State {
    s.(r := ReadEffect(op, s.r, OperandValue(mode, s.r, p1, p2, s.mem)),
       pc := Advance(s.pc, ModeLength(mode)),
       clk := s.clk + ReadCycles(mode, Crossed(mode, s.r, p1, p2, s.mem)))
  }

  function ExecSave(op: SaveOp, mode: Mode, p1: bv8, p2: bv16, s: State): State {
    s.(mem := Poke(s.mem, Ea(mode, s.r, p1, p2, s.mem), Saved(op, s.r)),
       pc := Advance(s.pc, ModeLength(mode)), clk := s.clk + SaveCycles(mode))
  }

  function ExecModify(op: ModifyOp, mode: Mode, p1: bv8, p2: bv16, s: State): State {
    var ea := Ea(mode, s.r, p1, p2, s.mem);
    var m := ModifyEffect(op, s.r, Peek(s.mem, ea));
    s.(r := m.regs, mem := Poke(s.mem, ea, m.value),
       pc := Advance(s.pc, ModeLength(mode)), clk := s.clk + ModifyCycles(mode))
  }

  /**
   * The stores that AND a register with a page number plus one and, when indexing leaves the
   * page, use the stored value as the high byte of the address.
   */
  function ExecUnstable(op: UnstableOp, mode: Mode, p1: bv8, p2: bv16, s: State): State {
    var base := Base(mode, p1, p2, s.mem);
    var ea := Ea(mode, s.r, p1, p2, s.mem);
    var v := UnstableValue(UnstableSource(op, s.r), if mode == IndY then base else ea);
    var target := if Crossed(mode, s.r, p1, p2, s.mem) then Word(Lo(ea), v) else ea;
    s.(r := if op == SHS then s.r.(sp := s.r.a & s.r.x) else s.r, mem := Poke(s.mem, target, v),
       pc := Advance(s.pc, ModeLength(mode)), clk := s.clk + SaveCycles(mode))
  }

  function ExecBranch(taken: bool, p1: bv8, s: State): State {
    var next := Advance(s.pc, 2);
    var dest := Advance(next, SignExtend(p1));
    if !taken then s.(pc := next, clk := s.clk + 2)
    else s.(pc := dest, clk := s.clk + (if SamePage(next, dest) then 3 else 4))
  }

  function ExecJump(i: Instr, p1: bv8, p2: bv16, s: State): State
    requires i == BRK || i == JSR || i == RTI || i == RTS || i == JMP || i == JMI
  {
    match i
    case BRK =>
      var f := s.r.f.(b := true);
      var m := Push(PushWord(s.mem, s.r.sp, Advance(s.pc, 2)), Down(Down(s.r.sp)), StatusByte(f));
      State(s.r.(sp := Down(Down(Down(s.r.sp))), f := f.(i := true)), Word(Peek(m, 0xfffe), Peek(m, 0xffff)),
        s.clk + 7, m)
    case JSR =>
      // the high byte of the target is read after the pushes
      var m := PushWord(s.mem, s.r.sp, Advance(s.pc, 2));
      State(s.r.(sp := Down(Down(s.r.sp))), Word(p1, Peek(m, Advance(s.pc, 2))), s.clk + 6, m)
    case RTI =>
      s.(r := s.r.(sp := Up(Up(Up(s.r.sp))), f := StatusFlags(Peek(s.mem, StackAddr(Up(s.r.sp))))),
         pc := PullWord(s.mem, Up(s.r.sp)), clk := s.clk + 6)
    case RTS =>
      s.(r := s.r.(sp := Up(Up(s.r.sp))), pc := Advance(PullWord(s.mem, s.r.sp), 1), clk := s.clk + 6)
    case JMP => s.(pc := p2, clk := s.clk + 3)
    case JMI =>
      // the pointer does not cross a page
      s.(pc := Word(Peek(s.mem, p2), Peek(s.mem, (p2 & 0xff00) | (Advance(p2, 1) & 0xff))), clk := s.clk + 5)
  }

  function ExecStack(i: Instr, s: State): State
    requires i == PHA || i == PHP || i == PLA || i == PLP
  {
    var pulled := Peek(s.mem, StackAddr(Up(s.r.sp)));
    match i
    case PHA =>
      s.(r := s.r.(sp := Down(s.r.sp)), mem := Push(s.mem, s.r.sp, s.r.a), pc := Advance(s.pc, 1), clk := s.clk + 3)
    case PHP =>
      s.(r := s.r.(sp := Down(s.r.sp)), mem := Push(s.mem, s.r.sp, StatusByte(s.r.f.(b := true))),
         pc := Advance(s.pc, 1), clk := s.clk + 3)
    case PLA =>
      s.(r := s.r.(sp := Up(s.r.sp), a := pulled, f := WithNZ(s.r.f, pulled)), pc := Advance(s.pc, 1), clk := s.clk + 4)
    case PLP =>
      s.(r := s.r.(sp := Up(s.r.sp), f := StatusFlags(pulled)), pc := Advance(s.pc, 1), clk := s.clk + 4)
  }

  function Exec(i: Instr, p1: bv8, p2: bv16, s: State): State {
    match i
    case Read(op, mode) => ExecRead(op, mode, p1, p2, s)
    case Save(op, mode) => ExecSave(op, mode, p1, p2, s)
    case Modify(op, mode) => ExecModify(op, mode, p1, p2, s)
    case Unstable(op, mode) => ExecUnstable(op, mode, p1, p2, s)
    case Implied(op) => s.(r := ImpliedEffect(op, s.r), pc := Advance(s.pc, 1), clk := s.clk + 2)
    case Branch(flag, sense) => ExecBranch(Taken(flag, sense, s.r.f), p1, s)
    case PHA => ExecStack(i, s)
    case PHP => ExecStack(i, s)
    case PLA => ExecStack(i, s)
    case PLP => ExecStack(i, s)
    case JAM => s
    case _ => ExecJump(i, p1, p2, s)
  }

  function Opcode(s: State): bv8 {
    Peek(s.mem, s.pc)
  }

  function Operand(i: Instr, s: State): bv16 {
    Word(Peek(s.mem, Advance(s.pc, 1)), if WordOperand(i) then Peek(s.mem, Advance(s.pc, 2)) else 0)
  }

  /** One instruction.  A JAM opcode stops the processor where it is. */
  function Step(s: State): State {
    var i := Decode(Opcode(s));
    Exec(i, Peek(s.mem, Advance(s.pc, 1)), Operand(i, s), s)
  }

  function Run(s: State, n: nat): State
    decreases n
  {
    if n == 0 then s else Run(Step(s), n - 1)
  }
}
