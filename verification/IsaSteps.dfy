/**
 * Where the instructions go and how long they take, in whole numbers: effective addresses,
 * stores, branches, the stack and the clock.  Sizes are those of the monitor's opcode list.
 */
module IsaSteps {
  import opened Isa
  import opened Numbers
  import opened IsaMeans
  import Monitor

  // -------------------------------------------------------------------------
  // Effective addresses

  /** A word whose low and high bytes are at two places. */
  function WordAt(m: Ram, low: nat, high: nat): nat
    requires low < 0x10000 && high < 0x10000
  {
    Num(m[low]) + 256 * Num(m[high])
  }

  /** The pointer in page zero, whose high byte does not leave that page. */
  function Pointer(m: Ram, z: nat): nat
    requires z < 256
  {
    WordAt(m, z, (z + 1) % 256)
  }

  /** The address an index register is added to. */
  function Unindexed(mode: Mode, p1: bv8, p2: bv16, m: Ram): nat {
    if mode == IndY then Pointer(m, Num(p1)) else Index(p2)
  }

  /** Page zero wraps at 256, everything else at 65536. */
  function Address(mode: Mode, r: Regs, p1: bv8, p2: bv16, m: Ram): (n: nat)
    ensures n < 0x10000
  {
    match mode
    case Imm => 0
    case Zp => Num(p1)
    case ZpX => (Num(p1) + Num(r.x)) % 256
    case ZpY => (Num(p1) + Num(r.y)) % 256
    case Abs => Index(p2)
    case AbsX => (Index(p2) + Num(r.x)) % 0x10000
    case AbsY => (Index(p2) + Num(r.y)) % 0x10000
    case IndX => Pointer(m, (Num(p1) + Num(r.x)) % 256)
    case IndY => (Pointer(m, Num(p1)) + Num(r.y)) % 0x10000
  }

  lemma ZeroPageIs(v: bv8)
    ensures Index(v as bv16) == Num(v) && Index((v as bv16 + 1) & 0xff) == (Num(v) + 1) % 256
  {
    NextInZero(v);
    Widened(v);
    Widened(Plus(v, 1));
    hide Plus, Index, Num;
    PlusIs(v, 1);
    OneIs();
  }

  lemma NextInZero(v: bv8)
    ensures (v as bv16 + 1) & 0xff == Plus(v, 1) as bv16
  {}

  lemma ZeroIndexedIs(v: bv8, index: bv8)
    ensures ZeroIndexed(v, index) == Plus(v, index) as bv16 && Num(Plus(v, index)) == (Num(v) + Num(index)) % 256
  {
    PlusIs(v, index);
    hide Num;
  }

  lemma PointerIs(m: Ram, v: bv8)
    ensures Index(ZWord(m, v as bv16)) == Pointer(m, Num(v))
  {
    ZeroPageIs(v);
    hide Word, Num, Index;
    WordIs(Peek(m, v as bv16), Peek(m, (v as bv16 + 1) & 0xff));
  }

  lemma ZeroPageMeans(mode: Mode, r: Regs, p1: bv8, p2: bv16, m: Ram)
    requires mode == Zp || mode == ZpX || mode == ZpY || mode == Imm
    ensures Index(Ea(mode, r, p1, p2, m)) == Address(mode, r, p1, p2, m)
  {
    ZeroIndexedIs(p1, r.x);
    ZeroIndexedIs(p1, r.y);
    NothingIs();
    hide Num, Index, Plus, ZeroIndexed, Indexed, ZWord, Pointer;
    Widened(p1);
    Widened(Plus(p1, r.x));
    Widened(Plus(p1, r.y));
  }

  lemma IndexedMeans(mode: Mode, r: Regs, p1: bv8, p2: bv16, m: Ram)
    requires mode == IndY || mode == Abs || mode == AbsX || mode == AbsY
    ensures Index(Ea(mode, r, p1, p2, m)) == Address(mode, r, p1, p2, m)
  {
    hide Num, Index, Plus, ZeroIndexed, Indexed, ZWord, Pointer;
    IndexedIs(p2, r.x);
    IndexedIs(p2, r.y);
    PointerIs(m, p1);
    IndexedIs(ZWord(m, p1 as bv16), r.y);
  }

  lemma IndirectMeans(r: Regs, p1: bv8, p2: bv16, m: Ram)
    ensures Index(Ea(IndX, r, p1, p2, m)) == Address(IndX, r, p1, p2, m)
  {
    ZeroIndexedIs(p1, r.x);
    hide Num, Index, Plus, ZeroIndexed, Indexed, ZWord, Pointer;
    PointerIs(m, Plus(p1, r.x));
  }

  /** The reference addresses are those numbers. */
  lemma AddressMeans(mode: Mode, r: Regs, p1: bv8, p2: bv16, m: Ram)
    ensures Index(Ea(mode, r, p1, p2, m)) == Address(mode, r, p1, p2, m)
    ensures Index(Base(mode, p1, p2, m)) == Unindexed(mode, p1, p2, m)
  {
    PointerIs(m, p1);
    hide Ea, Address, ZWord, Pointer, Num, Index;
    if mode == Imm || mode == Zp || mode == ZpX || mode == ZpY {
      ZeroPageMeans(mode, r, p1, p2, m);
    } else if mode == IndX {
      IndirectMeans(r, p1, p2, m);
    } else {
      IndexedMeans(mode, r, p1, p2, m);
    }
  }

  lemma NothingIs()
    ensures Index(0) == 0
  {}

  // -------------------------------------------------------------------------
  // Time

  predicate ByPointer(mode: Mode) { mode == IndX || mode == IndY }

  predicate IndexedInZero(mode: Mode) { mode == ZpX || mode == ZpY || mode == IndX }

  predicate MayCross(mode: Mode) { mode == AbsX || mode == AbsY || mode == IndY }

  function Size(mode: Mode): nat { Monitor.AddrModeSize(Monitor.ModeOf(mode)) }

  predicate Crosses(mode: Mode, r: Regs, p1: bv8, p2: bv16, m: Ram) {
    MayCross(mode) && Unindexed(mode, p1, p2, m) / 256 != Address(mode, r, p1, p2, m) / 256
  }

  /** One cycle for each byte of the instruction, of the pointer, and for an index added inside page zero. */
  function FetchTime(mode: Mode): nat {
    Size(mode) + 2 * Number(ByPointer(mode)) + Number(IndexedInZero(mode))
  }

  lemma CrossedMeans(mode: Mode, r: Regs, p1: bv8, p2: bv16, m: Ram)
    ensures Crossed(mode, r, p1, p2, m) <==> Crosses(mode, r, p1, p2, m)
  {
    AddressMeans(mode, r, p1, p2, m);
    hide Base, Ea, SamePage, Unindexed, Address, Index;
    SamePageIs(Base(mode, p1, p2, m), Ea(mode, r, p1, p2, m));
  }

  lemma TimesAre(mode: Mode, crossed: bool)
    ensures ReadCycles(mode, crossed) == FetchTime(mode) + Number(mode != Imm) + Number(MayCross(mode) && crossed)
    ensures Index(ModeLength(mode)) == Size(mode)
  {}

  /** The program counter after an instruction of some bytes. */
  function After(pc: bv16, bytes: nat): nat { (Index(pc) + bytes) % 0x10000 }

  lemma AfterMode(pc: bv16, mode: Mode)
    ensures Index(Advance(pc, ModeLength(mode))) == After(pc, Size(mode))
  {
    TimesAre(mode, false);
    AdvanceIs(pc, ModeLength(mode));
    hide Advance, ModeLength, Size, Index;
  }

  /** A reading instruction: its operand, the next instruction, and a cycle more where it crosses a page. */
  lemma ReadMeans(op: ReadOp, mode: Mode, p1: bv8, p2: bv16, s: State)
    ensures var t := Exec(Read(op, mode), p1, p2, s);
      && t.r == ReadEffect(op, s.r, if mode == Imm then p1 else s.mem[Address(mode, s.r, p1, p2, s.mem)])
      && t.mem == s.mem && Index(t.pc) == After(s.pc, Size(mode))
      && t.clk == s.clk + FetchTime(mode) + Number(mode != Imm) + Number(Crosses(mode, s.r, p1, p2, s.mem))
  {
    AddressMeans(mode, s.r, p1, p2, s.mem);
    CrossedMeans(mode, s.r, p1, p2, s.mem);
    TimesAre(mode, Crossed(mode, s.r, p1, p2, s.mem));
    AfterMode(s.pc, mode);
    hide ReadEffect, Ea, Crossed, Address, Unindexed, Advance, ModeLength, ReadCycles, FetchTime, Index, After, Size;
  }

  /** A store writes one byte and always takes the cycle of the page crossing. */
  lemma SaveMeans(op: SaveOp, mode: Mode, p1: bv8, p2: bv16, s: State)
    requires mode != Imm
    ensures var t := Exec(Save(op, mode), p1, p2, s);
      && t.r == s.r && t.mem == s.mem[Address(mode, s.r, p1, p2, s.mem) := Saved(op, s.r)]
      && Index(t.pc) == After(s.pc, Size(mode)) && t.clk == s.clk + FetchTime(mode) + 1 + Number(MayCross(mode))
  {
    AddressMeans(mode, s.r, p1, p2, s.mem);
    TimesAre(mode, true);
    AfterMode(s.pc, mode);
    hide Saved, Ea, Address, Advance, ModeLength, ReadCycles, FetchTime, MayCross, Index, After, Size;
  }

  /** STA, STX and STY store their register, SAX the digits A and X have in common. */
  lemma SavedMeans(r: Regs, k: nat)
    ensures Saved(STA, r) == r.a && Saved(STX, r) == r.x && Saved(STY, r) == r.y
    ensures Digit(Num(Saved(SAX, r)), k) <==> Digit(Num(r.a), k) && Digit(Num(r.x), k)
  {
    LogicDigits(r.a, r.x, k);
    assert Saved(SAX, r) == Both(r.a, r.x);
    hide Num;
  }

  /** A read-modify-write instruction puts its result where the operand was, two cycles later. */
  lemma ModifyMeans(op: ModifyOp, mode: Mode, p1: bv8, p2: bv16, s: State)
    requires mode != Imm
    ensures var t, n := Exec(Modify(op, mode), p1, p2, s), Address(mode, s.r, p1, p2, s.mem);
      && Result(t.mem[n], t.r) == ModifyEffect(op, s.r, s.mem[n]) && t.mem == s.mem[n := t.mem[n]]
      && Index(t.pc) == After(s.pc, Size(mode)) && t.clk == s.clk + FetchTime(mode) + 3 + Number(MayCross(mode))
  {
    AddressMeans(mode, s.r, p1, p2, s.mem);
    TimesAre(mode, true);
    AfterMode(s.pc, mode);
    hide ModifyEffect, Ea, Address, Advance, ModeLength, ReadCycles, FetchTime, MayCross, Index, After, Size;
  }

  /** Operations without an operand take two cycles and one byte. */
  lemma ImpliedMeans(op: ImpliedOp, p1: bv8, p2: bv16, s: State)
    ensures var t := Exec(Implied(op), p1, p2, s);
      t.r == ImpliedEffect(op, s.r) && t.mem == s.mem && Index(t.pc) == After(s.pc, 1) && t.clk == s.clk + 2
  {
    AdvanceIs(s.pc, 1);
    SmallWords();
    hide ImpliedEffect, Advance, Index;
  }

  lemma SmallWords()
    ensures Index(1) == 1 && Index(2) == 2
  {}

  // -------------------------------------------------------------------------
  // The stores with an unstable value

  /** The page an unstable store ANDs with, less one: of the address, or of the pointer before it is indexed. */
  function UnstablePage(mode: Mode, r: Regs, p1: bv8, p2: bv16, m: Ram): nat {
    (if mode == IndY then Unindexed(mode, p1, p2, m) else Address(mode, r, p1, p2, m)) / 256
  }

  /** Where such a store lands: a crossed page number is replaced by the stored value. */
  function UnstableTarget(mode: Mode, r: Regs, p1: bv8, p2: bv16, m: Ram, v: bv8): (n: nat)
    ensures n < 0x10000
  {
    var n := Address(mode, r, p1, p2, m);
    if Crosses(mode, r, p1, p2, m) then n % 256 + 256 * Num(v) else n
  }

  lemma NextPage(addr: bv16, k: nat, source: bv8)
    ensures Digit(Num(UnstableValue(source, addr)), k) <==>
      Digit(Num(source), k) && Digit((Index(addr) / 256 + 1) % 256, k)
  {
    WordParts(addr);
    UnstableIsBoth(source, addr);
    hide UnstableValue, Both, Plus, Hi, Lo, Index, Num, Digit;
    LogicDigits(source, Plus(Hi(addr), 1), k);
    PlusIs(Hi(addr), 1);
    OneIs();
  }

  lemma UnstableIsBoth(source: bv8, addr: bv16)
    ensures UnstableValue(source, addr) == Both(source, Plus(Hi(addr), 1))
  {
    hide Hi;
  }

  lemma TargetIs(ea: bv16, v: bv8)
    ensures Index(Word(Lo(ea), v)) == Index(ea) % 256 + 256 * Num(v)
  {
    WordIs(Lo(ea), v);
    WordParts(ea);
    hide Word, Lo, Hi, Index, Num;
  }

  function Stored(op: UnstableOp, mode: Mode, p1: bv8, p2: bv16, s: State): bv8 {
    UnstableValue(UnstableSource(op, s.r),
      if mode == IndY then Base(mode, p1, p2, s.mem) else Ea(mode, s.r, p1, p2, s.mem))
  }

  /** The value they store, digit by digit. */
  lemma StoredMeans(op: UnstableOp, mode: Mode, p1: bv8, p2: bv16, s: State, k: nat)
    ensures Digit(Num(Stored(op, mode, p1, p2, s)), k) <==>
      Digit(Num(UnstableSource(op, s.r)), k) && Digit((UnstablePage(mode, s.r, p1, p2, s.mem) + 1) % 256, k)
  {
    AddressMeans(mode, s.r, p1, p2, s.mem);
    NextPage(if mode == IndY then Base(mode, p1, p2, s.mem) else Ea(mode, s.r, p1, p2, s.mem), k,
      UnstableSource(op, s.r));
    hide Ea, Base, Address, Unindexed, UnstableValue, UnstableSource, Digit, Num, Index;
  }

  /** SHA, SHX, SHY and SHS write that value at one place; SHS sets the stack pointer. */
  lemma UnstableMeans(op: UnstableOp, mode: Mode, p1: bv8, p2: bv16, s: State)
    requires mode != Imm
    ensures var t, v := Exec(Unstable(op, mode), p1, p2, s), Stored(op, mode, p1, p2, s);
      && t.mem == s.mem[UnstableTarget(mode, s.r, p1, p2, s.mem, v) := v]
      && t.r == (if op == SHS then s.r.(sp := UnstableSource(op, s.r)) else s.r)
      && Index(t.pc) == After(s.pc, Size(mode)) && t.clk == s.clk + FetchTime(mode) + 1 + Number(MayCross(mode))
  {
    AddressMeans(mode, s.r, p1, p2, s.mem);
    CrossedMeans(mode, s.r, p1, p2, s.mem);
    TargetIs(Ea(mode, s.r, p1, p2, s.mem), Stored(op, mode, p1, p2, s));
    TimesAre(mode, true);
    AfterMode(s.pc, mode);
    hide Ea, Base, Address, Unindexed, Crossed, Crosses, UnstableValue, Word, Lo, Num, Index, Advance, ModeLength,
      ReadCycles, FetchTime, MayCross, After, Size;
  }

  /** SHX and SHY store from X and Y, SHA and SHS the digits A and X have in common. */
  lemma UnstableSourceMeans(r: Regs, k: nat)
    ensures UnstableSource(SHX, r) == r.x && UnstableSource(SHY, r) == r.y
    ensures UnstableSource(SHA, r) == UnstableSource(SHS, r)
    ensures Digit(Num(UnstableSource(SHA, r)), k) <==> Digit(Num(r.a), k) && Digit(Num(r.x), k)
  {
    LogicDigits(r.a, r.x, k);
    assert UnstableSource(SHA, r) == Both(r.a, r.x);
    hide Num;
  }

  // -------------------------------------------------------------------------
  // Branches

  /** The branch instructions by opcode: BPL, BMI, BVC, BVS, BCC, BCS, BNE and BEQ. */
  lemma TakenMeans(f: Flags)
    ensures TakenBy(0x10, f) == !f.n && TakenBy(0x30, f) == f.n && TakenBy(0x50, f) == !f.v && TakenBy(0x70, f) == f.v
    ensures TakenBy(0x90, f) == !f.c && TakenBy(0xb0, f) == f.c && TakenBy(0xd0, f) == !f.z && TakenBy(0xf0, f) == f.z
  {}

  predicate TakenBy(op: bv8, f: Flags) {
    var i := Decode(op);
    i.Branch? && Taken(i.flag, i.sense, f)
  }

  lemma SignedIs(v: bv8)
    ensures Index(SignExtend(v)) == Signed(v) % 0x10000
  {
    ExtendedIs(v);
    SignIs(v);
    hide SignExtend, Word, Neg, Index, Num;
    WordIs(v, if Neg(v) then 0xff else 0);
    EndsAre();
  }

  lemma EndsAre()
    ensures Num(0xff) == 0xff && Num(0) == 0
  {}

  lemma ExtendedIs(v: bv8)
    ensures SignExtend(v) == Word(v, if Neg(v) then 0xff else 0)
  {}

  /**
   * A branch that is not taken goes on in two cycles; one that is goes as far as its signed
   * operand says, in three, or in four if that is another page than the next instruction's.
   */
  lemma BranchMeans(flag: bv8, sense: bool, p1: bv8, p2: bv16, s: State)
    ensures var t, next := Exec(Branch(flag, sense), p1, p2, s), After(s.pc, 2);
      var dest := (next + Signed(p1)) % 0x10000;
      && t.r == s.r && t.mem == s.mem
      && if Taken(flag, sense, s.r.f)
         then Index(t.pc) == dest && t.clk == s.clk + 3 + Number(next / 256 != dest / 256)
         else Index(t.pc) == next && t.clk == s.clk + 2
  {
    var next := Advance(s.pc, 2);
    var dest := Advance(next, SignExtend(p1));
    hide Taken, Advance, SignExtend, SamePage, Signed, Num, Index, After;
    AfterTwo(s.pc);
    BranchTarget(next, p1);
    SamePageIs(next, dest);
  }

  lemma AfterTwo(pc: bv16)
    ensures Index(Advance(pc, 2)) == After(pc, 2)
  {
    AdvanceIs(pc, 2);
    SmallWords();
    hide Advance, Index;
  }

  lemma BranchTarget(next: bv16, p1: bv8)
    ensures Index(Advance(next, SignExtend(p1))) == (Index(next) + Signed(p1)) % 0x10000
  {
    hide *;
    SignedIs(p1);
    AdvanceIs(next, SignExtend(p1));
    Reduced(Index(next), Signed(p1));
  }

  lemma Reduced(x: int, y: int)
    ensures (x + y % 0x10000) % 0x10000 == (x + y) % 0x10000
  {}

  // -------------------------------------------------------------------------
  // The status byte

  /** The flags as a number, with the unused fifth digit set. */
  function StatusNumber(f: Flags): nat {
    128 * Number(f.n) + 64 * Number(f.v) + 32 + 16 * Number(f.b) + 8 * Number(f.d) + 4 * Number(f.i) + 2 * Number(f.z)
    + Number(f.c)
  }

  function StatusLow(f: Flags): bv8 { Bit(f.d, 8) | Bit(f.i, 4) | Bit(f.z, 2) | Bit(f.c, 1) }

  function StatusHigh(f: Flags): bv8 { Bit(f.n, 8) | Bit(f.v, 4) | 2 | Bit(f.b, 1) }

  lemma StatusHalves(f: Flags)
    ensures StatusByte(f) == Joined(StatusHigh(f), StatusLow(f))
  {}

  lemma FourDigits(w: bool, x: bool, y: bool, z: bool)
    ensures Num(Bit(w, 8) | Bit(x, 4) | Bit(y, 2) | Bit(z, 1)) ==
      8 * Number(w) + 4 * Number(x) + 2 * Number(y) + Number(z)
  {}

  lemma StatusMeans(f: Flags)
    ensures Num(StatusByte(f)) == StatusNumber(f)
  {
    StatusHalves(f);
    StatusHalvesAre(f);
    hide StatusByte, StatusHigh, StatusLow, Joined, Num;
    JoinedIs(StatusHigh(f), StatusLow(f));
  }

  lemma StatusHalvesAre(f: Flags)
    ensures Num(StatusHigh(f)) == 8 * Number(f.n) + 4 * Number(f.v) + 2 + Number(f.b)
    ensures Num(StatusLow(f)) == 8 * Number(f.d) + 4 * Number(f.i) + 2 * Number(f.z) + Number(f.c)
  {
    FourDigits(f.n, f.v, true, f.b);
    FourDigits(f.d, f.i, f.z, f.c);
    hide Num;
  }

  /** Pulling any byte as the status and pushing it again only sets the unused digit. */
  lemma StatusPulled(v: bv8)
    ensures StatusByte(StatusFlags(v)) == Either(v, 0x20)
  {}

  // -------------------------------------------------------------------------
  // The stack

  /** Page one, whatever the stack pointer. */
  function Slot(sp: int): (n: nat)
    ensures n < 0x10000
  {
    256 + sp % 256
  }

  lemma SlotIs(sp: bv8)
    ensures Index(StackAddr(sp)) == Slot(Num(sp))
  {
    StackIsWord(sp);
    hide StackAddr, Word, Index, Num;
    WordIs(sp, 1);
    OneIs();
    ByteRange(sp);
  }

  lemma StackIsWord(sp: bv8)
    ensures StackAddr(sp) == Word(sp, 1)
  {}

  lemma DownIs(sp: bv8)
    ensures Num(Down(sp)) == (Num(sp) - 1) % 256 && Index(StackAddr(Down(sp))) == Slot(Num(sp) - 1)
  {
    assert Down(sp) == Minus(sp, 1);
    hide Down, StackAddr, Index, Num;
    MinusIs(sp, 1);
    OneIs();
    SlotIs(Down(sp));
  }

  lemma UpIs(sp: bv8)
    ensures Num(Up(sp)) == (Num(sp) + 1) % 256 && Index(StackAddr(Up(sp))) == Slot(Num(sp) + 1)
  {
    assert Up(sp) == Plus(sp, 1);
    hide Up, StackAddr, Index, Num;
    PlusIs(sp, 1);
    OneIs();
    SlotIs(Up(sp));
  }

  /** PHA and PHP store at the stack pointer and count it down, PLA and PLP count it up and load there. */
  lemma StackMeans(s: State)
    ensures var t := ExecStack(PHA, s);
      && t.r == s.r.(sp := t.r.sp) && Num(t.r.sp) == (Num(s.r.sp) - 1) % 256
      && t.mem == s.mem[Slot(Num(s.r.sp)) := s.r.a] && Index(t.pc) == After(s.pc, 1) && t.clk == s.clk + 3
    ensures var t := ExecStack(PHP, s);
      && t.r == s.r.(sp := t.r.sp) && Num(t.r.sp) == (Num(s.r.sp) - 1) % 256
      && t.mem == s.mem[Slot(Num(s.r.sp)) := t.mem[Slot(Num(s.r.sp))]]
      && Num(t.mem[Slot(Num(s.r.sp))]) == StatusNumber(s.r.f.(b := true))
      && Index(t.pc) == After(s.pc, 1) && t.clk == s.clk + 3
  {
    SlotIs(s.r.sp);
    DownIs(s.r.sp);
    StatusMeans(s.r.f.(b := true));
    AdvanceIs(s.pc, 1);
    SmallWords();
    hide StackAddr, Down, StatusByte, StatusNumber, Slot, Advance, Index, Num;
  }

  lemma PullMeans(s: State)
    ensures var t := ExecStack(PLA, s);
      && AccuAs(s.r.(sp := t.r.sp), t.r) && Num(t.r.sp) == (Num(s.r.sp) + 1) % 256 && t.mem == s.mem
      && t.r.a == s.mem[Slot(Num(s.r.sp) + 1)] && Index(t.pc) == After(s.pc, 1) && t.clk == s.clk + 4
    ensures var t := ExecStack(PLP, s);
      && t.r == s.r.(sp := t.r.sp, f := t.r.f) && Num(t.r.sp) == (Num(s.r.sp) + 1) % 256 && t.mem == s.mem
      && StatusByte(t.r.f) == Either(s.mem[Slot(Num(s.r.sp) + 1)], 0x20)
      && Index(t.pc) == After(s.pc, 1) && t.clk == s.clk + 4
  {
    var v := Peek(s.mem, StackAddr(Up(s.r.sp)));
    UpIs(s.r.sp);
    StatusPulled(v);
    WithNZIs(s.r.f, v);
    AdvanceIs(s.pc, 1);
    SmallWords();
    hide StackAddr, Up, StatusByte, StatusFlags, Slot, WithNZ, NZOf, Either, Advance, Index, Num;
  }

  // -------------------------------------------------------------------------
  // Calls, interrupts and jumps

  lemma SlotWraps(n: int, k: int)
    ensures Slot(n % 256 + k) == Slot(n + k) && (n % 256 + k) % 256 == (n + k) % 256
  {}

  lemma SlotsApart(n: int)
    ensures Slot(n) != Slot(n - 1) && Slot(n) != Slot(n - 2) && Slot(n - 1) != Slot(n - 2)
  {}

  lemma TwoDown(sp: bv8)
    ensures Num(Down(Down(sp))) == (Num(sp) - 2) % 256 && Index(StackAddr(Down(Down(sp)))) == Slot(Num(sp) - 2)
    ensures Num(Down(Down(Down(sp)))) == (Num(sp) - 3) % 256
  {
    hide *;
    DownIs(sp);
    DownIs(Down(sp));
    DownIs(Down(Down(sp)));
    SlotWraps(Num(sp) - 1, -1);
    SlotWraps(Num(sp) - 2, -1);
  }

  lemma TwoUp(sp: bv8)
    ensures Num(Up(Up(sp))) == (Num(sp) + 2) % 256 && Index(StackAddr(Up(Up(sp)))) == Slot(Num(sp) + 2)
    ensures Num(Up(Up(Up(sp)))) == (Num(sp) + 3) % 256 && Index(StackAddr(Up(Up(Up(sp))))) == Slot(Num(sp) + 3)
  {
    hide *;
    UpIs(sp);
    UpIs(Up(sp));
    UpIs(Up(Up(sp)));
    SlotWraps(Num(sp) + 1, 1);
    SlotWraps(Num(sp) + 2, 1);
  }

  /** A word lies below the stack pointer, its high byte first, and nothing else is new. */
  predicate PushedOn(m: Ram, n: Ram, sp: nat, w: nat) {
    && WordAt(n, Slot(sp - 1), Slot(sp)) == w
    && n == m[Slot(sp) := n[Slot(sp)]][Slot(sp - 1) := n[Slot(sp - 1)]]
  }

  lemma PushWordMeans(m: Ram, sp: bv8, w: bv16)
    ensures PushedOn(m, PushWord(m, sp, w), Num(sp), Index(w))
  {
    SlotIs(sp);
    DownIs(sp);
    SlotsApart(Num(sp));
    WordParts(w);
    hide StackAddr, Down, Hi, Lo, Slot, Index, Num;
  }

  lemma PullWordMeans(m: Ram, sp: bv8)
    ensures Index(PullWord(m, sp)) == WordAt(m, Slot(Num(sp) + 1), Slot(Num(sp) + 2))
  {
    UpIs(sp);
    TwoUp(sp);
    hide StackAddr, Up, Word, Slot, Index, Num;
    WordIs(Peek(m, StackAddr(Up(sp))), Peek(m, StackAddr(Up(Up(sp)))));
  }

  /** JSR pushes the address of its own last byte and reads the target's high byte there afterwards. */
  lemma CallMeans(p1: bv8, p2: bv16, s: State)
    ensures var t := Exec(JSR, p1, p2, s);
      && PushedOn(s.mem, t.mem, Num(s.r.sp), After(s.pc, 2)) && t.r == s.r.(sp := t.r.sp)
      && Num(t.r.sp) == (Num(s.r.sp) - 2) % 256 && Index(t.pc) == Num(p1) + 256 * Num(t.mem[After(s.pc, 2)])
      && t.clk == s.clk + 6
  {
    var ret := Advance(s.pc, 2);
    AdvanceIs(s.pc, 2);
    SmallWords();
    TwoDown(s.r.sp);
    hide Down, PushWord, PushedOn, Word, Advance, Index, Num;
    PushWordMeans(s.mem, s.r.sp, ret);
    WordIs(p1, Peek(PushWord(s.mem, s.r.sp, ret), ret));
  }

  /** RTS goes to the byte after the address it pulls. */
  lemma ReturnMeans(p1: bv8, p2: bv16, s: State)
    ensures var t := Exec(RTS, p1, p2, s);
      && Index(t.pc) == (WordAt(s.mem, Slot(Num(s.r.sp) + 1), Slot(Num(s.r.sp) + 2)) + 1) % 0x10000
      && t.r == s.r.(sp := t.r.sp) && Num(t.r.sp) == (Num(s.r.sp) + 2) % 256 && t.mem == s.mem && t.clk == s.clk + 6
  {
    PullWordMeans(s.mem, s.r.sp);
    AdvanceIs(PullWord(s.mem, s.r.sp), 1);
    SmallWords();
    TwoUp(s.r.sp);
    hide Up, PullWord, WordAt, Slot, Advance, Index, Num;
  }

  /** RTI pulls the status and then the address it goes to. */
  lemma ResumeMeans(p1: bv8, p2: bv16, s: State)
    ensures var t := Exec(RTI, p1, p2, s);
      && Index(t.pc) == WordAt(s.mem, Slot(Num(s.r.sp) + 2), Slot(Num(s.r.sp) + 3))
      && StatusByte(t.r.f) == Either(s.mem[Slot(Num(s.r.sp) + 1)], 0x20) && t.r == s.r.(sp := t.r.sp, f := t.r.f)
      && Num(t.r.sp) == (Num(s.r.sp) + 3) % 256 && t.mem == s.mem && t.clk == s.clk + 6
  {
    UpIs(s.r.sp);
    TwoUp(s.r.sp);
    StatusPulled(Peek(s.mem, StackAddr(Up(s.r.sp))));
    PullWordMeans(s.mem, Up(s.r.sp));
    SlotWraps(Num(s.r.sp) + 1, 1);
    SlotWraps(Num(s.r.sp) + 1, 2);
    hide StackAddr, Up, PullWord, StatusByte, StatusFlags, WordAt, Slot, Either, Index, Num;
  }

  /** BRK pushes the address two bytes on and the status with B, disables interrupts and takes the vector. */
  lemma BreakMeans(p1: bv8, p2: bv16, s: State)
    ensures var t, n := Exec(BRK, p1, p2, s), Slot(Num(s.r.sp) - 2);
      && PushedOn(s.mem, t.mem[n := s.mem[n]], Num(s.r.sp), After(s.pc, 2))
      && Num(t.mem[n]) == StatusNumber(s.r.f.(b := true)) && Index(t.pc) == WordAt(t.mem, 0xfffe, 0xffff)
      && t.r == s.r.(sp := t.r.sp, f := s.r.f.(b := true, i := true)) && Num(t.r.sp) == (Num(s.r.sp) - 3) % 256
      && t.clk == s.clk + 7
  {
    var m := BreakMemory(s);
    AfterTwo(s.pc);
    BreakMemoryIs(s);
    VectorIs();
    TwoDown(s.r.sp);
    WordIs(Peek(m, 0xfffe), Peek(m, 0xffff));
    hide StackAddr, Down, Push, PushWord, PushedOn, StatusByte, StatusNumber, Word, Slot, Advance, Index, Num, After;
  }

  function BreakMemory(s: State): Ram {
    Push(PushWord(s.mem, s.r.sp, Advance(s.pc, 2)), Down(Down(s.r.sp)), StatusByte(s.r.f.(b := true)))
  }

  lemma BreakMemoryIs(s: State)
    ensures var m, n := BreakMemory(s), Slot(Num(s.r.sp) - 2);
      && PushedOn(s.mem, m[n := s.mem[n]], Num(s.r.sp), Index(Advance(s.pc, 2)))
      && Num(m[n]) == StatusNumber(s.r.f.(b := true))
  {
    var ret, f := Advance(s.pc, 2), s.r.f.(b := true);
    TwoDown(s.r.sp);
    StatusMeans(f);
    PushWordMeans(s.mem, s.r.sp, ret);
    UntouchedBelow(s.mem, PushWord(s.mem, s.r.sp, ret), Num(s.r.sp), Index(ret), StatusByte(f));
    hide StackAddr, Down, PushWord, PushedOn, StatusByte, StatusNumber, Slot, Advance, Index, Num;
  }

  lemma VectorIs()
    ensures Index(0xfffe) == 0xfffe && Index(0xffff) == 0xffff
  {}

  lemma UntouchedBelow(m: Ram, n: Ram, sp: nat, w: nat, v: bv8)
    requires PushedOn(m, n, sp, w)
    ensures var k := Slot(sp - 2); PushedOn(m, n[k := v][k := m[k]], sp, w)
  {
    SlotsApart(sp);
    hide Slot, Num;
    var k := Slot(sp - 2);
    assert n[k] == m[k];
    assert n[k := v][k := m[k]] == n;
  }

  /** The next address in the same page, around its end. */
  function NextInPage(p: nat): (n: nat)
    requires p < 0x10000
    ensures n < 0x10000
  {
    p / 256 * 256 + (p + 1) % 256
  }

  /** JMP goes where it says, indirectly through a pointer that stays in its page. */
  lemma JumpMeans(p1: bv8, p2: bv16, s: State)
    ensures var t := Exec(JMP, p1, p2, s); t == s.(pc := t.pc, clk := s.clk + 3) && Index(t.pc) == Index(p2)
    ensures var t, p := Exec(JMI, p1, p2, s), Index(p2);
      t == s.(pc := t.pc, clk := s.clk + 5) && Index(t.pc) == WordAt(s.mem, p, NextInPage(p))
  {
    InPage(p2);
    hide Word, Advance, NextInPage, Index, Num;
    WordIs(Peek(s.mem, p2), Peek(s.mem, (p2 & 0xff00) | (Advance(p2, 1) & 0xff)));
  }

  lemma InPage(p: bv16)
    ensures Index((p & 0xff00) | (Advance(p, 1) & 0xff)) == NextInPage(Index(p))
  {
    InPageParts(p);
    WordParts(p);
    AdvanceIs(p, 1);
    WordParts(Advance(p, 1));
    SmallWords();
    hide Word, Lo, Hi, Advance, Index, Num;
    WordIs(Lo(Advance(p, 1)), Hi(p));
    WideRemainder(Index(p) + 1);
  }

  lemma WideRemainder(n: int)
    ensures n % 0x10000 % 256 == n % 256
  {}

  lemma InPageParts(p: bv16)
    ensures (p & 0xff00) | (Advance(p, 1) & 0xff) == Word(Lo(Advance(p, 1)), Hi(p))
  {}

  // -------------------------------------------------------------------------
  // Opcodes

  /** Where an instruction goes that does not jump: past as many bytes as the monitor lists for its opcode. */
  lemma NextInstruction(s: State)
    requires var i := Decode(Opcode(s));
      i.Read? || i.Save? || i.Modify? || i.Unstable? || i.Implied? || i == PHA || i == PHP || i == PLA || i == PLP
      || (i.Branch? && !Taken(i.flag, i.sense, s.r.f))
    ensures Index(Step(s).pc) == After(s.pc, Monitor.AddrModeSize(Monitor.OpcodeList(Opcode(s)).addrMode))
  {
    var i := Decode(Opcode(s));
    Monitor.ListAgrees(Opcode(s));
    hide Decode, Monitor.OpcodeList, Monitor.SameName, Peek, Word, WordOperand, Taken, Advance, ModeLength, Index,
      After, ReadEffect, ImpliedEffect, ModifyEffect, Ea, Base, Crossed, StatusByte, StatusFlags, WithNZ;
    AdvanceIs(s.pc, 1);
    AdvanceIs(s.pc, 2);
    SmallWords();
    AfterIs(s.pc);
    if i.Read? {
      AfterMode(s.pc, i.rmode);
    } else if i.Save? {
      AfterMode(s.pc, i.smode);
    } else if i.Modify? {
      AfterMode(s.pc, i.mmode);
    } else if i.Unstable? {
      AfterMode(s.pc, i.umode);
    }
  }

  lemma AfterIs(pc: bv16)
    ensures After(pc, 1) == (Index(pc) + 1) % 0x10000 && After(pc, 2) == (Index(pc) + 2) % 0x10000
  {}

  /** A step reads the opcode and the one or two bytes behind it, around the end of memory. */
  lemma StepMeans(s: State)
    ensures var i := Decode(s.mem[Index(s.pc)]); Step(s) == Exec(i, s.mem[After(s.pc, 1)], Operand(i, s), s)
  {
    hide Decode, Exec, Operand, Advance, Index;
    AdvanceIs(s.pc, 1);
    SmallWords();
  }

  /** The operand is a word where the monitor lists three bytes, except that JSR reads its second byte late. */
  lemma OperandMeans(s: State)
    ensures var i, op := Decode(Opcode(s)), Opcode(s);
      && (WordOperand(i) ==> Index(Operand(i, s)) == WordAt(s.mem, After(s.pc, 1), After(s.pc, 2)))
      && (WordOperand(i) <==> i != JSR && Monitor.AddrModeSize(Monitor.OpcodeList(op).addrMode) == 3)
  {
    var op := Opcode(s);
    SizesAre(op);
    hide Decode, Monitor.OpcodeList, Monitor.AddrModeSize, WordOperand, Word, Advance, Index, Num;
    AdvanceIs(s.pc, 1);
    AdvanceIs(s.pc, 2);
    SmallWords();
    WordIs(Peek(s.mem, Advance(s.pc, 1)), Peek(s.mem, Advance(s.pc, 2)));
  }

  lemma SizesAre(op: bv8)
    ensures WordOperand(Decode(op)) <==>
      Decode(op) != JSR && Monitor.AddrModeSize(Monitor.OpcodeList(op).addrMode) == 3
  {
    Monitor.ListAgrees(op);
    NamedSize(Decode(op));
    hide Decode, Monitor.OpcodeList, Monitor.SameName, Monitor.Named, Monitor.AddrModeSize, WordOperand;
  }

  lemma NamedSize(i: Instr)
    ensures WordOperand(i) <==> i != JSR && Monitor.AddrModeSize(Monitor.Named(i).addrMode) == 3
  {}
}
