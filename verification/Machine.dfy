/**
 * What the macros of both cores are expanded against: the processor's local variables, the
 * clock and plain memory, together with the flag macros and the arithmetic bodies whose text
 * is the same in both cores.
 */
module Machine {
  import opened Isa

  const P_OVERFLOW: bv8 := 0x40
  const P_UNUSED: bv8 := 0x20
  const P_BREAK: bv8 := 0x10
  const P_DECIMAL: bv8 := 0x08
  const P_INTERRUPT: bv8 := 0x04
  const P_ZERO: bv8 := 0x02
  const P_CARRY: bv8 := 0x01

  /**
   * The local variables `reg_p`, `flag_n` and `flag_z`: N is bit 7 of `n`, Z is set when `z`
   * is 0, every other flag is a bit of `p`, which never holds a copy of N or Z.
   */
  datatype RawStatus = Status(p: bv8, n: bv8, z: bv8)

  type Status = s: RawStatus | s.p & 0x82 == 0 witness Status(0, 0, 0)

  /** `reg_a`, `reg_x`, `reg_y`, `reg_sp` and the status variables. */
  datatype Locals = Locals(a: bv8, x: bv8, y: bv8, sp: bv8, st: Status)

  function F(s: Status): Flags {
    Flags(s.n & 0x80 != 0, s.p & P_OVERFLOW != 0, s.p & P_BREAK != 0, s.p & P_DECIMAL != 0,
          s.p & P_INTERRUPT != 0, s.z == 0, s.p & P_CARRY != 0)
  }

  function R(l: Locals): Regs {
    Regs(l.a, l.x, l.y, l.sp, F(l.st))
  }

  // -------------------------------------------------------------------------
  // The flag macros

  method SetNZ(s: Status, val: bv8) returns (r: Status)
    ensures F(r) == WithNZ(F(s), val)
  {
    r := s.(n := val, z := val);
  }

  method SetOverflow(s: Status, val: bool) returns (r: Status)
    ensures F(r) == F(s).(v := val)
  {
    if val {
      r := s.(p := s.p | P_OVERFLOW);
    } else {
      r := s.(p := s.p & !P_OVERFLOW);
    }
  }

  method SetBreak(s: Status, val: bool) returns (r: Status)
    ensures F(r) == F(s).(b := val)
  {
    if val {
      r := s.(p := s.p | P_BREAK);
    } else {
      r := s.(p := s.p & !P_BREAK);
    }
  }

  method SetDecimal(s: Status, val: bool) returns (r: Status)
    ensures F(r) == F(s).(d := val)
  {
    if val {
      r := s.(p := s.p | P_DECIMAL);
    } else {
      r := s.(p := s.p & !P_DECIMAL);
    }
  }

  method SetInterrupt(s: Status, val: bool) returns (r: Status)
    ensures F(r) == F(s).(i := val)
  {
    if val {
      r := s.(p := s.p | P_INTERRUPT);
    } else {
      r := s.(p := s.p & !P_INTERRUPT);
    }
  }

  method SetCarry(s: Status, val: bool) returns (r: Status)
    ensures F(r) == F(s).(c := val)
  {
    if val {
      r := s.(p := s.p | P_CARRY);
    } else {
      r := s.(p := s.p & !P_CARRY);
    }
  }

  method SetSign(s: Status, val: bool) returns (r: Status)
    ensures F(r) == F(s).(n := val)
  {
    if val {
      r := s.(n := 0x80);
    } else {
      r := s.(n := 0);
    }
  }

  method SetZero(s: Status, val: bool) returns (r: Status)
    ensures F(r) == F(s).(z := val)
  {
    if val {
      r := s.(z := 0);
    } else {
      r := s.(z := 1);
    }
  }

  method SetStatus(val: bv8) returns (r: Status)
    ensures F(r) == StatusFlags(val)
  {
    r := Status(val & !(P_ZERO | 0x80), val, 1);
    if val & P_ZERO != 0 {
      r := r.(z := 0);
    }
  }

  method LocalStatus(s: Status) returns (val: bv8)
    ensures val == StatusByte(F(s))
  {
    val := s.p | (s.n & 0x80) | P_UNUSED;
    if s.z == 0 {
      val := val | P_ZERO;
    }
  }

  predicate OverflowSet(s: Status)
    ensures OverflowSet(s) == F(s).v
  {
    s.p & P_OVERFLOW != 0
  }

  predicate DecimalSet(s: Status)
    ensures DecimalSet(s) == F(s).d
  {
    s.p & P_DECIMAL != 0
  }

  predicate CarrySet(s: Status)
    ensures CarrySet(s) == F(s).c
  {
    s.p & P_CARRY != 0
  }

  predicate SignSet(s: Status)
    ensures SignSet(s) == F(s).n
  {
    s.n & 0x80 != 0
  }

  predicate ZeroSet(s: Status)
    ensures ZeroSet(s) == F(s).z
  {
    s.z == 0
  }

  /** The carry as the lowest bit of a number. */
  function CarryBit(s: Status): (c: bv16)
    ensures c == CarryIn(F(s)) && c <= 1
  {
    (s.p & P_CARRY) as bv16
  }

  // -------------------------------------------------------------------------
  // Bit patterns used by the arithmetic bodies

  lemma SignDiffers(a: bv8, t: bv16)
    ensures ((a as bv16 ^ t) & 0x80 != 0) == (Neg(a) != Neg(Lo(t)))
    ensures ((a as bv16 ^ t) & 0x80 == 0) == (Neg(a) == Neg(Lo(t)))
    ensures (t & 0x80 != 0) == Neg(Lo(t))
  {
  }

  lemma SignsDiffer(a: bv8, v: bv8)
    ensures ((a ^ v) & 0x80 != 0) == (Neg(a) != Neg(v))
    ensures ((a ^ v) & 0x80 == 0) == (Neg(a) == Neg(v))
  {
  }

  /** The two steps of the macro: the lower digits adjusted, then the upper ones added. */
  function LowDigits(a: bv8, v: bv8, carry: bv16): bv16 {
    (a as bv16 & 0xf) + (v as bv16 & 0xf) + carry
  }

  function Adjusted(t: bv16): bv16 {
    if t > 9 then t + 6 else t
  }

  function UpperDigits(low: bv16, a: bv8, v: bv8): bv16 {
    (low & 0xf) + (a as bv16 & 0xf0) + (v as bv16 & 0xf0)
  }

  lemma RawIsTmp(a: bv8, v: bv8, carry: bv16)
    requires carry <= 1
    ensures
      var low := Adjusted(LowDigits(a, v, carry));
      var t := UpperDigits(low, a, v);
      RawDecimal(a, v, carry) == (if low <= 0xf then t else t + 0x10) <= 0x1ff
  {
  }

  lemma UpperCorrection(raw: bv16)
    requires raw <= 0x1ff
    ensures (raw & 0x1f0 > 0x90) == (raw >= 0xa0)
    ensures (Corrected(raw) & 0xff0 > 0xf0) == (Corrected(raw) > 0xff)
  {
  }

  lemma NoBorrow(a: bv8, v: bv8, borrow: bv16)
    requires borrow <= 1
    ensures (Difference(a, v, borrow) < 0x100) == (a as bv16 >= v as bv16 + borrow)
  {
    if borrow == 0 {
      PlainDifference(a, v);
    } else {
      assert borrow == 1;
      if a > v {
        assert a - v >= 1;
      }
    }
  }

  lemma PlainDifference(a: bv8, v: bv8)
    ensures (Difference(a, v, 0) < 0x100) == (a >= v) && Lo(Difference(a, v, 0)) == Minus(a, v)
  {
  }

  lemma LowDigit(a: bv8, v: bv8, borrow: bv16)
    requires borrow <= 1
    ensures
      var d := (a as bv16 & 0xf) - (v as bv16 & 0xf) - borrow;
      var digit := DigitDifference(a & 0xf, LowTake(v, Lo(borrow))) & 0xf;
      && (d & 0x10 != 0) == LowBorrows(a, v, Lo(borrow))
      && (LowBorrows(a, v, Lo(borrow)) ==> (d - 6) & 0xf == digit as bv16)
      && (!LowBorrows(a, v, Lo(borrow)) ==> d & 0xf == digit as bv16)
  {
  }

  lemma HighDigit(a: bv8, v: bv8, lo: bv16)
    requires lo <= 0xf
    ensures
      var d := lo | ((a as bv16 & 0xf0) - (v as bv16 & 0xf0));
      Lo(if d & 0x100 != 0 then d - 0x60 else d) == TwoDigits(Lo(lo), DigitDifference(a >> 4, v >> 4))
  {
  }

  lemma HighDigitBorrow(a: bv8, v: bv8, lo: bv16)
    requires lo <= 0xf
    ensures
      var d := lo | ((a as bv16 & 0xf0) - (v as bv16 & 0xf0) - 0x10);
      Lo(if d & 0x100 != 0 then d - 0x60 else d) == TwoDigits(Lo(lo), DigitDifference(a >> 4, (v >> 4) + 1))
  {
  }

  function ArrLow(t: bv8, q: bv8): bv8 {
    if (t & 0xf) + (t & 1) > 5 then (q & 0xf0) | ((q + 6) & 0xf) else q
  }

  function ArrCarry(t: bv8): bool {
    (t & 0xf0) as bv16 + (t & 0x10) as bv16 > 0x50
  }

  function ArrHigh(q: bv8): bv8 {
    (q & 0x0f) | ((q + 0x60) & 0xf0)
  }

  lemma ArrDigits(t: bv8, q: bv8, r: Regs)
    ensures ArrDecimal(t, q, r).f.c == ArrCarry(t)
    ensures ArrDecimal(t, q, r).a == if ArrCarry(t) then ArrHigh(ArrLow(t, q)) else ArrLow(t, q)
  {
    ArrBits(t, q);
  }

  lemma ArrBits(t: bv8, q: bv8)
    ensures
      var lo := if (t & 0xf) + (t & 1) > 5 then (q + 6) & 0xf else q & 0xf;
      ArrHigh(ArrLow(t, q)) == ((q + 0x60) & 0xf0) | lo && ArrLow(t, q) == (q & 0xf0) | lo
  {
  }

  lemma ArrOverflow(q: bv8)
    ensures ((q & 0x40) ^ ((q & 0x20) << 1) != 0) == ((q & 0x40 != 0) != (q & 0x20 != 0))
  {
  }

  lemma TopBit(v: bv8)
    ensures (v & 0x80 != 0) == Neg(v)
  {
  }

  // -------------------------------------------------------------------------
  // Arithmetic.  From here on the seven flags move as a whole.

  method AdcBinary(l: Locals, value: bv8, carry: bv16) returns (r: Locals)
    ensures R(r) == (var s := AddBinary(l.a, value, carry, F(l.st)); R(l).(a := s.value, f := s.flags))
  {
    hide F, Total, Lo, Neg;
    var tmp := Total(l.a, value, carry);
    SignDiffers(l.a, tmp);
    SignsDiffer(l.a, value);
    var st := SetNZ(l.st, Lo(tmp));
    st := SetOverflow(st, (l.a ^ value) & 0x80 == 0 && (l.a as bv16 ^ tmp) & 0x80 != 0);
    st := SetCarry(st, tmp > 0xff);
    r := l.(a := Lo(tmp), st := st);
  }

  method DecimalDigits(regA: bv8, value: bv8, carry: bv16) returns (tmp: bv16)
    requires carry <= 1
    ensures tmp == RawDecimal(regA, value, carry) && tmp <= 0x1ff
  {
    hide RawDecimal, LowDigits, Adjusted, UpperDigits;
    tmp := LowDigits(regA, value, carry);
    tmp := AdjustDigits(tmp);
    if tmp <= 0x0f {
      tmp := UpperDigits(tmp, regA, value);
    } else {
      tmp := UpperDigits(tmp, regA, value) + 0x10;
    }
    RawIsTmp(regA, value, carry);
  }

  method AdjustDigits(low: bv16) returns (tmp: bv16)
    ensures tmp == Adjusted(low)
  {
    tmp := low;
    if tmp > 0x9 {
      tmp := tmp + 0x6;
    }
  }

  /** The correction of the upper digit and the carry out of it. */
  method UpperDigit(raw: bv16) returns (tmp: bv16, carry: bool)
    requires raw <= 0x1ff
    ensures tmp == Corrected(raw) && carry == (Corrected(raw) > 0xff)
  {
    tmp := raw;
    UpperCorrection(tmp);
    if tmp & 0x1f0 > 0x90 {
      tmp := tmp + 0x60;
    }
    carry := tmp & 0xff0 > 0xf0;
  }

  method AdcDecimal(l: Locals, value: bv8, carry: bv16) returns (r: Locals)
    requires carry <= 1
    ensures R(r) == (var s := AddDecimal(l.a, value, carry, F(l.st)); R(l).(a := s.value, f := s.flags))
  {
    hide F, RawDecimal, Corrected, Total, Lo, Neg;
    var tmp := DecimalDigits(l.a, value, carry);
    SignDiffers(l.a, tmp);
    SignsDiffer(l.a, value);
    var st := SetZero(l.st, Lo(Total(l.a, value, carry)) == 0);
    st := SetSign(st, tmp & 0x80 != 0);
    st := SetOverflow(st, (l.a as bv16 ^ tmp) & 0x80 != 0 && (l.a ^ value) & 0x80 == 0);
    var sum, carryOut := UpperDigit(tmp);
    st := SetCarry(st, carryOut);
    r := l.(a := Lo(sum), st := st);
  }

  method Adc(l: Locals, value: bv8) returns (r: Locals)
    ensures R(r) == Add(R(l), value)
  {
    hide F, AddDecimal, AddBinary;
    if DecimalSet(l.st) {
      r := AdcDecimal(l, value, CarryBit(l.st));
    } else {
      r := AdcBinary(l, value, CarryBit(l.st));
    }
  }

  method Sbc(l: Locals, value: bv8) returns (r: Locals)
    ensures R(r) == Subtract(R(l), value)
  {
    hide F, SubDecimal, Difference;
    var borrow: bv16 := 1;
    if CarrySet(l.st) {
      borrow := 0;
    }
    var result := Lo(Difference(l.a, value, borrow));
    if DecimalSet(l.st) {
      result := SbcDecimal(l.a, value, borrow);
    }
    var st := SbcFlags(l.a, value, borrow, l.st);
    r := l.(a := result, st := st);
  }

  method SbcFlags(regA: bv8, value: bv8, borrow: bv16, s: Status) returns (r: Status)
    requires borrow <= 1
    ensures F(r) == SubBinary(regA, value, borrow, F(s)).flags
  {
    hide F, Difference, Lo, Neg;
    var tmp := Difference(regA, value, borrow);
    SignDiffers(regA, tmp);
    SignsDiffer(regA, value);
    NoBorrow(regA, value, borrow);
    r := SetCarry(s, tmp < 0x100);
    r := SetNZ(r, Lo(tmp));
    r := SetOverflow(r, (regA as bv16 ^ tmp) & 0x80 != 0 && (regA ^ value) & 0x80 != 0);
  }

  method SbcDecimal(regA: bv8, value: bv8, borrow: bv16) returns (result: bv8)
    requires borrow <= 1
    ensures result == SubDecimal(regA, value, Lo(borrow))
  {
    hide DigitDifference, Lo, LowTake, LowBorrows, TwoDigits;
    var low, borrowed := LowDigitOf(regA, value, borrow);
    result := HighDigitOf(regA, value, low, borrowed);
    Masked(DigitDifference(regA & 0xf, LowTake(value, Lo(borrow))), HighDigitOnly(regA, value, borrowed));
  }

  function HighDigitOnly(a: bv8, v: bv8, borrowed: bool): bv8 {
    DigitDifference(a >> 4, HighTake(v, borrowed))
  }

  lemma Masked(lo: bv8, hi: bv8)
    ensures TwoDigits(lo & 0xf, hi) == TwoDigits(lo, hi)
  {
  }

  method LowDigitOf(regA: bv8, value: bv8, borrow: bv16) returns (low: bv16, borrowed: bool)
    requires borrow <= 1
    ensures low <= 0xf && borrowed == LowBorrows(regA, value, Lo(borrow))
    ensures Lo(low) == DigitDifference(regA & 0xf, LowTake(value, Lo(borrow))) & 0xf
  {
    LowDigit(regA, value, borrow);
    low := (regA as bv16 & 0xf) - (value as bv16 & 0xf) - borrow;
    borrowed := low & 0x10 != 0;
    if borrowed {
      low := (low - 6) & 0xf;
    } else {
      low := low & 0xf;
    }
  }

  method HighDigitOf(regA: bv8, value: bv8, low: bv16, borrowed: bool) returns (result: bv8)
    requires low <= 0xf
    ensures result == TwoDigits(Lo(low), HighDigitOnly(regA, value, borrowed))
  {
    hide DigitDifference, Lo, TwoDigits;
    HighDigit(regA, value, low);
    HighDigitBorrow(regA, value, low);
    var tmpA := low | ((regA as bv16 & 0xf0) - (value as bv16 & 0xf0));
    if borrowed {
      tmpA := low | ((regA as bv16 & 0xf0) - (value as bv16 & 0xf0) - 0x10);
    }
    if tmpA & 0x100 != 0 {
      tmpA := tmpA - 0x60;
    }
    result := Lo(tmpA);
  }

  method Cmp(reg: bv8, value: bv8, s: Status) returns (r: Status)
    ensures F(r) == Compare(F(s), reg, value)
  {
    hide F, Difference, Lo, Neg, Minus;
    var tmp := Difference(reg, value, 0);
    PlainDifference(reg, value);
    r := SetCarry(s, tmp < 0x100);
    r := SetNZ(r, Lo(tmp));
  }

  method Arr(l: Locals, value: bv8) returns (r: Locals)
    ensures R(r) == AndRotate(R(l), value)
  {
    hide F, Rotated, Bit, ArrDecimal, ArrBinary;
    var tmp := l.a & value;
    var tmp2 := RotateRight(tmp, CarrySet(l.st));
    if DecimalSet(l.st) {
      r := ArrCorrected(l, tmp, tmp2);
    } else {
      r := ArrPlain(l, tmp2);
    }
  }

  method ArrCorrected(l: Locals, tmp: bv8, rotated: bv8) returns (r: Locals)
    ensures R(r) == ArrDecimal(tmp, rotated, R(l))
  {
    hide F;
    var tmp2, carry := ArrDigitsFixed(tmp, rotated, R(l));
    var st := SetSign(l.st, CarrySet(l.st));
    st := SetZero(st, rotated == 0);
    st := SetOverflow(st, (rotated ^ tmp) & 0x40 != 0);
    st := SetCarry(st, carry);
    r := l.(a := tmp2, st := st);
  }

  method ArrDigitsFixed(tmp: bv8, rotated: bv8, ghost r: Regs) returns (tmp2: bv8, carry: bool)
    ensures tmp2 == ArrDecimal(tmp, rotated, r).a && carry == ArrDecimal(tmp, rotated, r).f.c
  {
    hide ArrDecimal;
    tmp2 := rotated;
    if (tmp & 0xf) + (tmp & 0x1) > 0x5 {
      tmp2 := (tmp2 & 0xf0) | ((tmp2 + 0x6) & 0xf);
    }
    assert tmp2 == ArrLow(tmp, rotated);
    hide ArrLow;
    carry := (tmp & 0xf0) as bv16 + (tmp & 0x10) as bv16 > 0x50;
    if carry {
      tmp2 := (tmp2 & 0x0f) | ((tmp2 + 0x60) & 0xf0);
    }
    ArrDigits(tmp, rotated, r);
  }

  method ArrPlain(l: Locals, rotated: bv8) returns (r: Locals)
    ensures R(r) == ArrBinary(rotated, R(l))
  {
    hide F;
    ArrOverflow(rotated);
    var st := SetNZ(l.st, rotated);
    st := SetCarry(st, rotated & 0x40 != 0);
    st := SetOverflow(st, (rotated & 0x40) ^ ((rotated & 0x20) << 1) != 0);
    r := l.(a := rotated, st := st);
  }

  /** `tmp |= carry << 8; tmp >>= 1`, on a value of at most nine bits. */
  method RotateRight(tmp: bv8, carry: bool) returns (q: bv8)
    ensures q == Rotated(tmp, Bit(carry, 0x80))
  {
    var wide := tmp as bv16;
    if carry {
      wide := wide | 0x100;
    }
    q := Lo(wide >> 1);
  }

  /** `tmp = value << 1 | carry`, nine bits of it. */
  method RotateLeft(value: bv8, carry: bool) returns (wide: bv16)
    ensures Lo(wide) == (value << 1) | Bit(carry, 1) && (wide & 0x100 != 0) == Neg(value)
  {
    wide := (value as bv16) << 1;
    if carry {
      wide := wide | 1;
    }
  }

  // -------------------------------------------------------------------------
  // Opcode bodies

  method LoadA(l: Locals, value: bv8) returns (r: Locals)
    ensures R(r) == WithA(R(l), value)
  {
    hide F;
    var st := SetNZ(l.st, value);
    r := l.(a := value, st := st);
  }

  method LoadX(l: Locals, value: bv8) returns (r: Locals)
    ensures R(r) == WithX(R(l), value)
  {
    hide F;
    var st := SetNZ(l.st, value);
    r := l.(x := value, st := st);
  }

  method LoadY(l: Locals, value: bv8) returns (r: Locals)
    ensures R(r) == WithY(R(l), value)
  {
    hide F;
    var st := SetNZ(l.st, value);
    r := l.(y := value, st := st);
  }

  method BitTest(l: Locals, value: bv8) returns (r: Locals)
    ensures R(r) == TestBits(R(l), value)
  {
    hide F;
    TopBit(value);
    var st := SetSign(l.st, value & 0x80 != 0);
    st := SetOverflow(st, value & 0x40 != 0);
    st := SetZero(st, value & l.a == 0);
    r := l.(st := st);
  }

  method Anc(l: Locals, value: bv8) returns (r: Locals)
    ensures R(r) == ReadEffect(ANC, R(l), value)
  {
    hide F;
    r := LoadA(l, l.a & value);
    var st := SetCarry(r.st, SignSet(r.st));
    r := r.(st := st);
  }

  method Asr(l: Locals, value: bv8) returns (r: Locals)
    ensures R(r) == ReadEffect(ASR, R(l), value)
  {
    hide F;
    var tmp := l.a & value;
    var st := SetCarry(l.st, tmp & 0x01 != 0);
    r := LoadA(l.(st := st), tmp >> 1);
  }

  method Sbx(l: Locals, value: bv8) returns (r: Locals)
    ensures R(r) == ReadEffect(SBX, R(l), value)
  {
    hide F, Difference, Lo, Minus, Compare, WithA, WithX, WithY, WithCarry, Add, Subtract, TestBits, AndRotate, Neg;
    var tmp := Difference(l.a & l.x, value, 0);
    PlainDifference(l.a & l.x, value);
    var st := Cmp(l.a & l.x, value, l.st);
    r := l.(x := Lo(tmp), st := st);
  }

  method Compared(l: Locals, reg: bv8, value: bv8) returns (r: Locals)
    ensures R(r) == R(l).(f := Compare(F(l.st), reg, value))
  {
    hide F;
    var st := Cmp(reg, value, l.st);
    r := l.(st := st);
  }

  method Ane(l: Locals, value: bv8) returns (r: Locals)
    ensures R(r) == ReadEffect(ANE, R(l), value)
  {
    r := LoadA(l, (l.a | 0xee) & l.x & value);
  }

  method Lxa(l: Locals, value: bv8) returns (r: Locals)
    ensures R(r) == ReadEffect(LXA, R(l), value)
  {
    var masked := (l.a | 0xee) & value;
    r := LoadA(l.(x := masked), masked);
  }

  method LogicBody(op: ReadOp, l: Locals, value: bv8) returns (r: Locals)
    requires op == ORA || op == AND || op == EOR
    ensures R(r) == ReadEffect(op, R(l), value)
  {
    hide F, WithA, WithX, WithY, WithCarry, Add, Subtract, Compare, TestBits, AndRotate, Neg;
    match op
    case ORA => r := LoadA(l, l.a | value);
    case AND => r := LoadA(l, l.a & value);
    case EOR => r := LoadA(l, l.a ^ value);
  }

  method LoadBody(op: ReadOp, l: Locals, value: bv8) returns (r: Locals)
    requires op == LDA || op == LDX || op == LDY || op == LAX || op == LAS
    ensures R(r) == ReadEffect(op, R(l), value)
  {
    hide F, WithA, WithX, WithY, WithCarry, Add, Subtract, Compare, TestBits, AndRotate, Neg;
    match op
    case LDA => r := LoadA(l, value);
    case LDX => r := LoadX(l, value);
    case LDY => r := LoadY(l, value);
    case LAX => r := LoadA(l.(x := value), value);
    case LAS => r := LoadA(l.(x := l.sp & value, sp := l.sp & value), l.sp & value);
  }

  method TestBody(op: ReadOp, l: Locals, value: bv8) returns (r: Locals)
    requires op == ADC || op == SBC || op == CMP || op == CPX || op == CPY || op == BIT || op == NOP
    ensures R(r) == ReadEffect(op, R(l), value)
  {
    hide F, WithA, WithX, WithY, WithCarry, Add, Subtract, Compare, TestBits, AndRotate, Neg;
    match op
    case ADC => r := Adc(l, value);
    case SBC => r := Sbc(l, value);
    case CMP => r := Compared(l, l.a, value);
    case CPX => r := Compared(l, l.x, value);
    case CPY => r := Compared(l, l.y, value);
    case BIT => r := BitTest(l, value);
    case NOP => r := l;
  }

  /** The body of every opcode that takes a value and changes registers only. */
  method ReadBody(op: ReadOp, l: Locals, value: bv8) returns (r: Locals)
    ensures R(r) == ReadEffect(op, R(l), value)
  {
    hide F, R, ReadEffect;
    match op
    case ORA | AND | EOR => r := LogicBody(op, l, value);
    case LDA | LDX | LDY | LAX | LAS => r := LoadBody(op, l, value);
    case ANC => r := Anc(l, value);
    case ASR => r := Asr(l, value);
    case ARR => r := AndRotated(l, value);
    case ANE => r := Ane(l, value);
    case LXA => r := Lxa(l, value);
    case SBX => r := Sbx(l, value);
    case _ => r := TestBody(op, l, value);
  }

  method AndRotated(l: Locals, value: bv8) returns (r: Locals)
    ensures R(r) == ReadEffect(ARR, R(l), value)
  {
    hide F, R, AndRotate;
    r := Arr(l, value);
  }

  method Shifted8(l: Locals, value: bv8, carry: bool) returns (r: Locals)
    ensures R(r) == OnAccu(Shifted(R(l), value, carry))
  {
    hide F, Neg;
    var st := SetCarry(l.st, carry);
    r := LoadA(l.(st := st), value);
  }

  method ShiftAccu(op: ModifyOp, l: Locals) returns (r: Locals)
    requires op == ASL || op == ROL || op == LSR || op == ROR
    ensures R(r) == OnAccu(ShiftEffect(op, R(l), l.a))
  {
    hide F, Rotated, Bit, OnAccu, Shifted, Neg, Lo;
    match op {
      case ASL =>
        TopBit(l.a);
        r := Shifted8(l, l.a << 1, l.a & 0x80 != 0);
      case ROL =>
        var tmp := RotateLeft(l.a, CarrySet(l.st));
        r := Shifted8(l, Lo(tmp), tmp & 0x100 != 0);
      case LSR =>
        r := Shifted8(l, l.a >> 1, l.a & 0x01 != 0);
      case ROR =>
        var tmp := RotateRight(l.a, CarrySet(l.st));
        r := Shifted8(l, tmp, l.a & 0x01 != 0);
    }
  }

  method TransferBody(op: ImpliedOp, l: Locals) returns (r: Locals)
    requires op in {TXA, TYA, TAX, TAY, TSX, TXS, NOP1}
    ensures R(r) == ImpliedEffect(op, R(l))
  {
    hide F, WithA, WithX, WithY, WithCarry, OnAccu, ShiftEffect;
    match op
    case TXA => r := LoadA(l, l.x);
    case TYA => r := LoadA(l, l.y);
    case TAX => r := LoadX(l, l.a);
    case TAY => r := LoadY(l, l.a);
    case TSX => r := LoadX(l, l.sp);
    case TXS => r := l.(sp := l.x);
    case NOP1 => r := l;
  }

  method CountBody(op: ImpliedOp, l: Locals) returns (r: Locals)
    requires op in {DEX, DEY, INX, INY}
    ensures R(r) == ImpliedEffect(op, R(l))
  {
    hide F, WithA, WithX, WithY, WithCarry, OnAccu, ShiftEffect;
    match op
    case DEX => r := LoadX(l, l.x - 1);
    case DEY => r := LoadY(l, l.y - 1);
    case INX => r := LoadX(l, l.x + 1);
    case INY => r := LoadY(l, l.y + 1);
  }

  method FlagBody(op: ImpliedOp, l: Locals) returns (r: Locals)
    requires op in {CLC, SEC, CLI, SEI, CLV, CLD, SED}
    ensures R(r) == ImpliedEffect(op, R(l))
  {
    hide F, WithA, WithX, WithY, OnAccu, ShiftEffect;
    var st := FlagSet(op, l.st);
    r := l.(st := st);
  }

  method FlagSet(op: ImpliedOp, s: Status) returns (r: Status)
    requires op in {CLC, SEC, CLI, SEI, CLV, CLD, SED}
    ensures F(r) == match op
      case CLC => F(s).(c := false)
      case SEC => F(s).(c := true)
      case CLI => F(s).(i := false)
      case SEI => F(s).(i := true)
      case CLV => F(s).(v := false)
      case CLD => F(s).(d := false)
      case _ => F(s).(d := true)
  {
    hide F;
    match op {
      case CLC => r := SetCarry(s, false);
      case SEC => r := SetCarry(s, true);
      case CLI => r := SetInterrupt(s, false);
      case SEI => r := SetInterrupt(s, true);
      case CLV => r := SetOverflow(s, false);
      case CLD => r := SetDecimal(s, false);
      case SED => r := SetDecimal(s, true);
    }
  }

  method AccuBody(op: ImpliedOp, l: Locals) returns (r: Locals)
    requires op in {AslA, RolA, LsrA, RorA}
    ensures R(r) == ImpliedEffect(op, R(l))
  {
    hide F, WithA, WithX, WithY, OnAccu, ShiftEffect;
    match op
    case AslA => r := ShiftAccu(ASL, l);
    case RolA => r := ShiftAccu(ROL, l);
    case LsrA => r := ShiftAccu(LSR, l);
    case RorA => r := ShiftAccu(ROR, l);
  }

  /** The body of every opcode that takes no operand and leaves memory and the stack alone. */
  method ImpliedBody(op: ImpliedOp, l: Locals) returns (r: Locals)
    ensures R(r) == ImpliedEffect(op, R(l))
  {
    hide F, R, ImpliedEffect;
    match op
    case AslA | RolA | LsrA | RorA => r := AccuBody(op, l);
    case DEX | DEY | INX | INY => r := CountBody(op, l);
    case CLC | SEC | CLI | SEI | CLV | CLD | SED => r := FlagBody(op, l);
    case _ => r := TransferBody(op, l);
  }

  /** The condition of a branch opcode. */
  method BranchCondition(flag: bv8, sense: bool, s: Status) returns (taken: bool)
    ensures taken == Taken(flag, sense, F(s))
  {
    hide F;
    var isSet := if flag == 0 then SignSet(s) else if flag == 1 then OverflowSet(s)
                 else if flag == 2 then CarrySet(s) else ZeroSet(s);
    taken := if sense then isSet else !isSet;
  }

  // -------------------------------------------------------------------------
  // Read-modify-write bodies

  /** The bodies of ASL, ROL, LSR, ROR, DEC and INC: the new value may still hold bits above the eighth. */
  method ShiftBody(op: ModifyOp, l: Locals, value: bv8) returns (r: Locals, tmp: bv16)
    requires op == ASL || op == ROL || op == LSR || op == ROR || op == DEC || op == INC
    ensures Result(Lo(tmp), R(r)) == ShiftEffect(op, R(l), value)
  {
    hide F, Neg, Rotated, Bit, Lo, ShiftedRegs;
    match op
    case ASL =>
      TopBit(value);
      LoOfByte(value << 1);
      tmp := (value << 1) as bv16;
      r := SetShift(l, value << 1, value & 0x80 != 0);
    case ROL =>
      tmp := RotateLeft(value, CarrySet(l.st));
      r := SetShift(l, Lo(tmp), tmp & 0x100 != 0);
    case LSR =>
      LoOfByte(value >> 1);
      tmp := (value >> 1) as bv16;
      r := SetShift(l, value >> 1, value & 0x01 != 0);
    case ROR =>
      var q := RotateRight(value, CarrySet(l.st));
      LoOfByte(q);
      tmp := q as bv16;
      r := SetShift(l, q, value & 0x01 != 0);
    case DEC =>
      LoOfByte(value - 1);
      tmp := (value - 1) as bv16;
      r := SetCount(l, value - 1);
    case INC =>
      LoOfByte(value + 1);
      tmp := (value + 1) as bv16;
      r := SetCount(l, value + 1);
  }

  lemma LoOfByte(v: bv8)
    ensures Lo(v as bv16) == v
  {
  }

  method SetShift(l: Locals, w: bv8, carry: bool) returns (r: Locals)
    ensures Result(w, R(r)) == Shifted(R(l), w, carry)
  {
    hide F, Neg;
    var st := SetCarry(l.st, carry);
    st := SetNZ(st, w);
    r := l.(st := st);
  }

  method SetCount(l: Locals, w: bv8) returns (r: Locals)
    ensures Result(w, R(r)) == Shifted(R(l), w, F(l.st).c)
  {
    hide F, Neg;
    var st := SetNZ(l.st, w);
    r := l.(st := st);
  }

  lemma AddIgnoresNZ(r: Regs, w: bv8, v: bv8)
    ensures Add(r.(f := WithNZ(r.f, w)), v) == Add(r, v)
  {
    hide RawDecimal, Corrected, Total, Lo, Neg, CarryIn;
    CarryDecides(WithNZ(r.f, w), r.f);
  }

  lemma SubtractIgnoresNZ(r: Regs, w: bv8, v: bv8)
    ensures Subtract(r.(f := WithNZ(r.f, w)), v) == Subtract(r, v)
  {
    hide SubDecimal, Difference, Lo, Neg, Bit, BorrowIn;
    CarryDecides(WithNZ(r.f, w), r.f);
  }

  lemma CarryDecides(f: Flags, g: Flags)
    requires f.c == g.c
    ensures CarryIn(f) == CarryIn(g) && BorrowIn(f) == BorrowIn(g)
  {
  }

  lemma LoadIgnoresNZ(r: Regs, w: bv8, v: bv8)
    ensures WithA(r.(f := WithNZ(r.f, w)), v) == WithA(r, v)
  {
    hide Neg;
  }

  lemma CompareIgnoresNZ(f: Flags, w: bv8, a: bv8, v: bv8)
    ensures Compare(WithNZ(f, w), a, v) == Compare(f, a, v)
  {
    hide Neg, Minus;
  }

  lemma ShiftedIsNZ(r: Regs, w: bv8, carry: bool)
    ensures var c := WithCarry(r, carry); ShiftedRegs(r, w, carry) == c.(f := WithNZ(c.f, w))
  {
    hide Neg;
  }

  /** An operation on the accumulator after one that set N, Z and C from the value `w`. */
  lemma SkippedNZ(op: ReadOp, r: Regs, w: bv8, carry: bool)
    requires op == ORA || op == AND || op == EOR || op == ADC || op == SBC || op == CMP
    ensures ReadEffect(op, ShiftedRegs(r, w, carry), w) == ReadEffect(op, WithCarry(r, carry), w)
  {
    var c := WithCarry(r, carry);
    ShiftedIsNZ(r, w, carry);
    hide *;
    var d := c.(f := WithNZ(c.f, w));
    if op == ORA || op == AND || op == EOR {
      LogicIgnoresNZ(op, c, w);
    } else {
      ArithmeticIgnoresNZ(op, c, w);
    }
  }

  lemma LogicIgnoresNZ(op: ReadOp, c: Regs, w: bv8)
    requires op == ORA || op == AND || op == EOR
    ensures ReadEffect(op, c.(f := WithNZ(c.f, w)), w) == ReadEffect(op, c, w)
  {
    hide Add, Subtract, WithA, WithX, WithY, Compare, WithNZ, WithCarry, TestBits, AndRotate, Neg, Minus;
    match op
    case ORA => LoadIgnoresNZ(c, w, c.a | w);
    case AND => LoadIgnoresNZ(c, w, c.a & w);
    case EOR => LoadIgnoresNZ(c, w, c.a ^ w);
  }

  lemma ArithmeticIgnoresNZ(op: ReadOp, c: Regs, w: bv8)
    requires op == ADC || op == SBC || op == CMP
    ensures ReadEffect(op, c.(f := WithNZ(c.f, w)), w) == ReadEffect(op, c, w)
  {
    hide Add, Subtract, WithA, WithX, WithY, Compare, WithNZ, WithCarry, TestBits, AndRotate, Neg, Minus;
    match op
    case ADC => AddIgnoresNZ(c, w, w);
    case SBC => SubtractIgnoresNZ(c, w, w);
    case CMP => CompareIgnoresNZ(c.f, w, c.a, w);
  }

  /** The second half of SLO, RLA, SRE and RRA. */
  method Combine(op: ReadOp, l: Locals, w: bv8, carry: bool) returns (r: Locals)
    requires op == ORA || op == AND || op == EOR || op == ADC
    ensures R(r) == ReadEffect(op, ShiftedRegs(R(l), w, carry), w)
  {
    hide F, Neg, ReadEffect, ShiftedRegs;
    SkippedNZ(op, R(l), w, carry);
    var st := SetCarry(l.st, carry);
    r := ReadBody(op, l.(st := st), w);
  }

  /** The second half of DCP and ISB. */
  method CombineCount(op: ReadOp, l: Locals, w: bv8) returns (r: Locals)
    requires op == CMP || op == SBC
    ensures R(r) == ReadEffect(op, ShiftedRegs(R(l), w, F(l.st).c), w)
  {
    hide F, Neg, ReadEffect, ShiftedRegs;
    SkippedNZ(op, R(l), w, F(l.st).c);
    r := ReadBody(op, l, w);
  }

  lemma ModifyKeepsIndex(op: ModifyOp, r: Regs, v: bv8)
    ensures ModifyEffect(op, r, v).regs.x == r.x && ModifyEffect(op, r, v).regs.y == r.y
  {
    hide ReadEffect;
    ShiftKeepsIndex(op, r, v);
    match op
    case SLO => ShiftKeepsIndex(ASL, r, v);
      ReadKeepsIndex(ORA, ShiftEffect(ASL, r, v).regs, ShiftEffect(ASL, r, v).value);
    case RLA => ShiftKeepsIndex(ROL, r, v);
      ReadKeepsIndex(AND, ShiftEffect(ROL, r, v).regs, ShiftEffect(ROL, r, v).value);
    case SRE => ShiftKeepsIndex(LSR, r, v);
      ReadKeepsIndex(EOR, ShiftEffect(LSR, r, v).regs, ShiftEffect(LSR, r, v).value);
    case RRA => ShiftKeepsIndex(ROR, r, v);
      ReadKeepsIndex(ADC, ShiftEffect(ROR, r, v).regs, ShiftEffect(ROR, r, v).value);
    case DCP => ShiftKeepsIndex(DEC, r, v);
      ReadKeepsIndex(CMP, ShiftEffect(DEC, r, v).regs, ShiftEffect(DEC, r, v).value);
    case ISB => ShiftKeepsIndex(INC, r, v);
      ReadKeepsIndex(SBC, ShiftEffect(INC, r, v).regs, ShiftEffect(INC, r, v).value);
    case _ =>
  }

  lemma ShiftKeepsIndex(op: ModifyOp, r: Regs, v: bv8)
    ensures ShiftEffect(op, r, v).regs.x == r.x && ShiftEffect(op, r, v).regs.y == r.y
  {
    hide Neg, Rotated, Bit;
  }

  lemma ReadKeepsIndex(op: ReadOp, r: Regs, v: bv8)
    requires op == ORA || op == AND || op == EOR || op == ADC || op == SBC || op == CMP
    ensures ReadEffect(op, r, v).x == r.x && ReadEffect(op, r, v).y == r.y
  {
    hide Neg, Minus, AddBinary, AddDecimal, SubBinary, SubDecimal, TestBits, AndRotate, Compare;
  }

  // -------------------------------------------------------------------------
  // The processor on its bus

  class Cpu {
    var l: Locals
    var pc: bv16
    var clk: nat
    const ram: array<bv8>

    // Bus accesses made so far.
    ghost var bus: int

    constructor (memory: array<bv8>)
      requires memory.Length == 0x10000
      ensures ram == memory && clk == 0 && bus == 0 && pc == 0 && l == Locals(0, 0, 0, 0, Status(0, 0, 0))
    {
      l, pc := Locals(0, 0, 0, 0, Status(0, 0, 0)), 0;
      clk, bus := 0, 0;
      ram := memory;
    }

    function Mem(): Ram
      requires ram.Length == 0x10000
      reads ram
    {
      ram[..]
    }

    function St(): State
      requires ram.Length == 0x10000
      reads this, ram
    {
      State(R(l), pc, clk, Mem())
    }

    method Load(addr: bv16) returns (v: bv8)
      requires ram.Length == 0x10000
      modifies this`bus
      ensures v == Peek(Mem(), addr) && bus == old(bus) + 1
    {
      hide Index;
      v := ram[Index(addr)];
      bus := bus + 1;
    }

    method Store(addr: bv16, value: bv8)
      requires ram.Length == 0x10000
      modifies this`bus, ram
      ensures Mem() == Poke(old(Mem()), addr, value) && bus == old(bus) + 1
    {
      hide Index;
      ram[Index(addr)] := value;
      bus := bus + 1;
    }

    method LoadZero(addr: bv16) returns (v: bv8)
      requires ram.Length == 0x10000
      modifies this`bus
      ensures v == Peek(Mem(), addr & 0xff) && bus == old(bus) + 1
    {
      v := Load(addr & 0xff);
    }

    method StoreZero(addr: bv16, value: bv8)
      requires ram.Length == 0x10000
      modifies this`bus, ram
      ensures Mem() == Poke(old(Mem()), addr & 0xff, value) && bus == old(bus) + 1
    {
      Store(addr & 0xff, value);
    }

    method PushByte(value: bv8)
      requires ram.Length == 0x10000
      modifies this`bus, this`l, ram
      ensures Mem() == Push(old(Mem()), old(l.sp), value)
      ensures l == old(l).(sp := Down(old(l.sp))) && bus == old(bus) + 1
    {
      Store(StackAddr(l.sp), value);
      l := l.(sp := Down(l.sp));
    }

    method PullByte() returns (v: bv8)
      requires ram.Length == 0x10000
      modifies this`bus, this`l
      ensures v == Peek(Mem(), StackAddr(Up(old(l.sp))))
      ensures l == old(l).(sp := Up(old(l.sp))) && bus == old(bus) + 1
    {
      l := l.(sp := Up(l.sp));
      v := Load(StackAddr(l.sp));
    }
  }
}
