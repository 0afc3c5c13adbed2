/**
 * What instructions undo for each other: calls and returns, software interrupts
 * and their return, pushes and pulls.
 */
module IsaLaws {
  import opened Isa

  lemma IndexInjective(a: bv16, b: bv16)
    ensures Index(a) == Index(b) ==> a == b
  {
    assert (Index(a) as bv16) == a && (Index(b) as bv16) == b;
  }

  lemma PeekPoke(m: Ram, a: bv16, b: bv16, v: bv8)
    ensures Peek(Poke(m, a, v), b) == if a == b then v else Peek(m, b)
  {
    hide Index;
    IndexInjective(a, b);
  }

  lemma StackSlots(sp: bv8)
    ensures Up(Down(sp)) == sp
    ensures StackAddr(sp) != StackAddr(Down(sp)) && StackAddr(sp) != StackAddr(Down(Down(sp)))
  {}

  lemma WordParts(w: bv16)
    ensures Word(Lo(w), Hi(w)) == w
  {}

  lemma AdvanceTwice(pc: bv16)
    ensures Advance(Advance(pc, 2), 1) == Advance(pc, 3)
  {}

  /** A pushed word is pulled back, at every stack pointer, wrapping included. */
  lemma WordOnStack(m: Ram, sp: bv8, w: bv16)
    ensures PullWord(PushWord(m, sp, w), Down(Down(sp))) == w
    ensures PushedWord(PushWord(m, sp, w), sp, w)
  {
    hide Peek, Poke, Up, Down, StackAddr, Word, Lo, Hi;
    StackSlots(sp);
    StackSlots(Down(sp));
    WordParts(w);
    var n := Push(m, sp, Hi(w));
    PeekPoke(m, StackAddr(sp), StackAddr(sp), Hi(w));
    PeekPoke(n, StackAddr(Down(sp)), StackAddr(sp), Lo(w));
    PeekPoke(n, StackAddr(Down(sp)), StackAddr(Down(sp)), Lo(w));
  }

  /** The two bytes of w lie on the stack from sp down. */
  predicate PushedWord(m: Ram, sp: bv8, w: bv16) {
    Peek(m, StackAddr(sp)) == Hi(w) && Peek(m, StackAddr(Down(sp))) == Lo(w)
  }

  /**
   * A subroutine that leaves the return address and the stack pointer as it
   * found them comes back to the instruction after the call, with the stack
   * pointer of before the call.
   */
  lemma CallReturns(s: State, t: State, p1: bv8, p2: bv16, q1: bv8, q2: bv16)
    requires t.r.sp == ExecJump(JSR, p1, p2, s).r.sp && PushedWord(t.mem, s.r.sp, Advance(s.pc, 2))
    ensures ExecJump(RTS, q1, q2, t) == State(t.r.(sp := s.r.sp), Advance(s.pc, 3), t.clk + 6, t.mem)
  {
    hide Peek, Poke, PushWord, Up, Down, StackAddr, Word, Lo, Hi, Advance;
    StackSlots(s.r.sp);
    StackSlots(Down(s.r.sp));
    WordParts(Advance(s.pc, 2));
    AdvanceTwice(s.pc);
  }

  /** JSR puts the return address there. */
  lemma CallPushes(s: State, p1: bv8, p2: bv16)
    ensures PushedWord(ExecJump(JSR, p1, p2, s).mem, s.r.sp, Advance(s.pc, 2))
  {
    hide Peek, PushWord, PullWord, PushedWord, Up, Down, Word, Advance;
    WordOnStack(s.mem, s.r.sp, Advance(s.pc, 2));
  }

  lemma StatusRoundTrip(f: Flags)
    ensures StatusFlags(StatusByte(f)) == f
  {}

  /** A handler that leaves its stack bytes and stack pointer alone returns past the BRK with the flags of before. */
  lemma BreakReturns(s: State, t: State, p1: bv8, p2: bv16, q1: bv8, q2: bv16)
    requires t.r.sp == ExecJump(BRK, p1, p2, s).r.sp
    requires PushedWord(t.mem, s.r.sp, Advance(s.pc, 2))
    requires Peek(t.mem, StackAddr(Down(Down(s.r.sp)))) == StatusByte(s.r.f.(b := true))
    ensures ExecJump(RTI, q1, q2, t) ==
      State(t.r.(sp := s.r.sp, f := s.r.f.(b := true)), Advance(s.pc, 2), t.clk + 6, t.mem)
  {
    hide Peek, Poke, PushWord, Up, Down, StackAddr, Word, Lo, Hi, Advance, StatusByte, StatusFlags;
    StackSlots(s.r.sp);
    StackSlots(Down(s.r.sp));
    StackSlots(Down(Down(s.r.sp)));
    WordParts(Advance(s.pc, 2));
    StatusRoundTrip(s.r.f.(b := true));
  }

  /** BRK puts those bytes there. */
  lemma BreakPushes(s: State, p1: bv8, p2: bv16)
    ensures var t := ExecJump(BRK, p1, p2, s);
      && PushedWord(t.mem, s.r.sp, Advance(s.pc, 2))
      && Peek(t.mem, StackAddr(Down(Down(s.r.sp)))) == StatusByte(s.r.f.(b := true))
      && t.r.f == s.r.f.(b := true, i := true)
  {
    hide Peek, Poke, PushWord, Up, Down, StackAddr, Word, Lo, Hi, Advance, StatusByte;
    var sp := s.r.sp;
    StackSlots(sp);
    StackSlots(Down(sp));
    WordOnStack(s.mem, sp, Advance(s.pc, 2));
    var m, v := PushWord(s.mem, sp, Advance(s.pc, 2)), StatusByte(s.r.f.(b := true));
    PeekPoke(m, StackAddr(Down(Down(sp))), StackAddr(sp), v);
    PeekPoke(m, StackAddr(Down(Down(sp))), StackAddr(Down(sp)), v);
    PeekPoke(m, StackAddr(Down(Down(sp))), StackAddr(Down(Down(sp))), v);
  }

  /** Pulling what was pushed gives back the stack pointer, and the accumulator or the flags. */
  lemma PullAfterPush(s: State)
    ensures var t := ExecStack(PLA, ExecStack(PHA, s));
      t.r == s.r.(f := WithNZ(s.r.f, s.r.a)) && t.pc == Advance(Advance(s.pc, 1), 1) && t.clk == s.clk + 7
    ensures var t := ExecStack(PLP, ExecStack(PHP, s));
      t.r == s.r.(f := s.r.f.(b := true)) && t.pc == Advance(Advance(s.pc, 1), 1) && t.clk == s.clk + 7
  {
    hide Peek, Poke, Up, Down, StackAddr, Advance, StatusByte, StatusFlags, WithNZ;
    StackSlots(s.r.sp);
    PeekPoke(s.mem, StackAddr(s.r.sp), StackAddr(s.r.sp), s.r.a);
    PeekPoke(s.mem, StackAddr(s.r.sp), StackAddr(s.r.sp), StatusByte(s.r.f.(b := true)));
    StatusRoundTrip(s.r.f.(b := true));
  }

  /** Runs compose. */
  lemma {:induction false} RunAdds(s: State, m: nat, n: nat)
    ensures Run(s, m + n) == Run(Run(s, m), n)
    decreases m
  {
    hide Step;
    if m > 0 {
      RunAdds(Step(s), m - 1, n);
    }
  }
}
