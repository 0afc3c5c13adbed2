/** What both cores share apart from arithmetic: the fetch table, address wrapping and a few macro bodies. */
module CoreCommon {
  import opened Isa
  import opened Machine

  // -------------------------------------------------------------------------
  // The opcode fetch: two bytes always, a third one where the table says so

  /** `fetch_tab`: columns C to F of every row, and columns 9 and B of the odd rows. */
  predicate FetchTab(op: bv8) {
    op & 0x0f >= 0x0c || (op & 0x10 != 0 && op & 0x0d == 0x09)
  }

  function FetchCycles(op: bv8): nat {
    if FetchTab(op) then 3 else 2
  }

  /** The table selects exactly the instructions that need a word, except that JSR fetches its high byte itself. */
  lemma FetchTabIsWordOperand(op: bv8)
    ensures FetchTab(op) == WordOperand(Decode(op))
  {
  }

  // -------------------------------------------------------------------------
  // Address arithmetic: eight bits in the zero page, sixteen elsewhere

  lemma ZeroPlain(p1: bv8)
    ensures p1 as bv16 & 0xff == p1 as bv16
  {
  }

  lemma ZeroWrap(p1: bv8, index: bv8)
    ensures Indexed(p1 as bv16, index) & 0xff == ZeroIndexed(p1, index)
    ensures (Indexed(p1 as bv16, index) + 1) & 0xff == (ZeroIndexed(p1, index) + 1) & 0xff
  {
  }

  lemma PageCross(addr: bv16, index: bv8)
    ensures (addr & 0xff + index as bv16 > 0xff) == !SamePage(addr, Indexed(addr, index))
  {
  }

  // -------------------------------------------------------------------------
  // Other bit patterns both cores use

  /** `value & ((addr >> 8) + 1)` in a wide integer. */
  function WideUnstable(source: bv8, addr: bv16): bv16 {
    source as bv16 & ((addr >> 8) + 1)
  }

  lemma UnstableIsNarrow(source: bv8, addr: bv16)
    ensures Lo(WideUnstable(source, addr)) == UnstableValue(source, addr)
  {
  }

  /** `(addr & 0xff) | (value << 8)`. */
  lemma UnstableTarget(source: bv8, addr: bv16, ea: bv16)
    ensures (ea & 0xff) | (WideUnstable(source, addr) << 8) == Word(Lo(ea), UnstableValue(source, addr))
  {
  }

  /** The unstable stores with an absolute address. */
  lemma UnstableAbs(op: UnstableOp, mode: Mode, p1: bv8, p2: bv16, s: State)
    requires mode == AbsX || mode == AbsY
    ensures var ea := Indexed(p2, if mode == AbsX then s.r.x else s.r.y);
            var v := UnstableValue(UnstableSource(op, s.r), ea);
            ExecUnstable(op, mode, p1, p2, s) ==
              s.(r := if op == SHS then s.r.(sp := s.r.a & s.r.x) else s.r,
                 mem := Poke(s.mem, if SamePage(p2, ea) then ea else Word(Lo(ea), v), v),
                 pc := Advance(s.pc, 3), clk := s.clk + 5)
  {
    hide Poke, Indexed, SamePage, Lo, Word, UnstableValue, Advance, UnstableSource;
  }

  lemma BranchPage(a: bv16, b: bv16)
    ensures ((a ^ b) & 0xff00 != 0) == !SamePage(a, b)
  {
  }

  /** `(signed char)` widened. */
  function SignedChar(v: bv8): bv16 {
    if v & 0x80 != 0 then 0xff00 | v as bv16 else v as bv16
  }

  lemma SignedCharExtends(v: bv8)
    ensures SignedChar(v) == SignExtend(v)
  {
  }

  lemma JamStays(s: State)
    requires Decode(Opcode(s)) == JAM
    ensures Step(s) == s
  {
    hide Decode;
  }

  // -------------------------------------------------------------------------
  // Macro bodies

  function SavedRegister(op: SaveOp, l: Locals): (v: bv8)
    ensures v == Saved(op, R(l))
  {
    match op
    case STA => l.a
    case STX => l.x
    case STY => l.y
    case SAX => l.a & l.x
  }

  /** No read-modify-write operation changes an index register. */
  lemma SameIndex(op: ModifyOp, l: Locals, v: bv8, r: Locals)
    requires R(r) == ModifyEffect(op, R(l), v).regs
    ensures r.x == l.x && r.y == l.y
  {
    hide F;
    ModifyKeepsIndex(op, R(l), v);
  }

  function UnstableRegister(op: UnstableOp, l: Locals): (v: bv8)
    ensures v == UnstableSource(op, R(l))
  {
    match op
    case SHX => l.x
    case SHY => l.y
    case SHA => l.a & l.x
    case SHS => l.a & l.x
  }

  /** The write of all five: the value replaces the high byte of an address that left its page. */
  method StoreSh(m: Cpu, addr: bv16, index: bv8, source: bv8, page: bv16)
    requires m.ram.Length == 0x10000
    modifies m`bus, m.ram
    ensures var ea := Indexed(addr, index); var v := UnstableValue(source, page);
            m.Mem() == Poke(old(m.Mem()), if SamePage(addr, ea) then ea else Word(Lo(ea), v), v)
    ensures m.bus == old(m.bus) + 1
  {
    hide Poke, Indexed, SamePage, Lo, Word, UnstableValue, WideUnstable;
    var tmp2 := Indexed(addr, index);
    var value := WideUnstable(source, page);
    UnstableIsNarrow(source, page);
    UnstableTarget(source, page, tmp2);
    PageCross(addr, index);
    if addr & 0xff + index as bv16 > 0xff {
      m.Store((tmp2 & 0xff) | (value << 8), Lo(value));
    } else {
      m.Store(tmp2, Lo(value));
    }
  }

  lemma StatusWithBreak(f: Flags)
    ensures StatusByte(f) | P_BREAK == StatusByte(f.(b := true))
  {
  }

  lemma NoopIsRead(mode: Mode, p1: bv8, p2: bv16, s: State)
    requires mode == Imm || mode == Zp || mode == ZpX
    ensures ExecRead(NOP, mode, p1, p2, s) == s.(pc := Advance(s.pc, 2), clk := s.clk + ReadCycles(mode, false))
  {
  }
}
