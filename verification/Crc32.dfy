/**
 * The table-driven CRC-32 against the bit-at-a-time definition: the reflected
 * polynomial 0xedb88320, register preset to ones and complemented at the end,
 * as in section 8 of RFC 1952.
 */
module Crc32 {
  const POLY: bv32 := 0xedb88320

  // ---------------------------------------------------------------- the definition

  function Half(c: bv32): bv32 { c >> 1 }
  function Xor(a: bv32, b: bv32): bv32 { a ^ b }
  function Low(b: bv32): bv32 { b & 1 }
  predicate Even(c: bv32) { c & 1 == 0 }

  /** One bit leaves the register at the low end. */
  function Step(c: bv32): bv32 {
    if Even(c) then Half(c) else Xor(POLY, Half(c))
  }

  /** n message bits enter, least significant first, each combined with the bit that leaves. */
  function Bits(c: bv32, b: bv32, n: nat): bv32
    decreases n
  {
    if n == 0 then c else Bits(Step(Xor(c, Low(b))), Half(b), n - 1)
  }

  function Register(buffer: seq<bv8>): bv32 {
    if buffer == [] then 0xffffffff
    else Bits(Register(buffer[..|buffer| - 1]), ByteAsBits(buffer[|buffer| - 1]), 8)
  }

  function Crc(buffer: seq<bv8>): bv32 {
    !Register(buffer)
  }

  // ---------------------------------------------------------------- a byte at a time

  function Steps(c: bv32, n: nat): bv32
    decreases n
  {
    if n == 0 then c else Steps(Step(c), n - 1)
  }

  /** Only bits below n are set. */
  predicate Fits(b: bv32, n: nat)
    decreases n
  {
    if n == 0 then b == 0 else Fits(Half(b), n - 1)
  }

  lemma XorAssoc(a: bv32, b: bv32, c: bv32)
    ensures Xor(a, Xor(b, c)) == Xor(Xor(a, b), c)
  {}

  lemma XorComm(a: bv32, b: bv32)
    ensures Xor(a, b) == Xor(b, a)
  {}

  lemma XorSelf(a: bv32)
    ensures Xor(a, a) == 0 && Xor(a, 0) == a && Xor(0, a) == a
  {}

  lemma XorHalves(u: bv32, v: bv32)
    ensures Half(Xor(u, v)) == Xor(Half(u), Half(v))
    ensures Even(Xor(u, v)) <==> Even(u) == Even(v)
  {}

  lemma LowHalves(b: bv32)
    ensures Half(Low(b)) == 0 && Even(Low(b)) == Even(b)
  {}

  /** A bit that enters now, with the bits above it entering later, is the whole of them entering now. */
  lemma BitEnters(c: bv32, b: bv32)
    ensures Step(Xor(c, b)) == Xor(Step(Xor(c, Low(b))), Half(b))
  {
    hide Half, Xor, Even, Low;
    XorHalves(c, b);
    XorHalves(c, Low(b));
    LowHalves(b);
    XorSelf(Half(c));
    XorAssoc(POLY, Half(c), Half(b));
  }

  lemma {:induction false} BitsAtOnce(c: bv32, b: bv32, n: nat)
    requires Fits(b, n)
    ensures Bits(c, b, n) == Steps(Xor(c, b), n)
    decreases n
  {
    if n == 0 {
      assert Xor(c, 0) == c;
    } else {
      hide Step, Xor, Half, Low;
      BitEnters(c, b);
      BitsAtOnce(Step(Xor(c, Low(b))), Half(b), n - 1);
    }
  }

  lemma StepLinear(u: bv32, v: bv32)
    ensures Step(Xor(u, v)) == Xor(Step(u), Step(v))
  {
    hide Half, Xor, Even;
    XorHalves(u, v);
    var a, b := Half(u), Half(v);
    XorAssoc(POLY, a, b);
    XorComm(POLY, a);
    XorAssoc(a, POLY, b);
    XorAssoc(a, POLY, Xor(POLY, b));
    XorAssoc(POLY, POLY, b);
    XorSelf(POLY);
    XorSelf(b);
  }

  lemma {:induction false} StepsLinear(u: bv32, v: bv32, n: nat)
    ensures Steps(Xor(u, v), n) == Xor(Steps(u, n), Steps(v, n))
    decreases n
  {
    hide Step, Xor;
    if n > 0 {
      StepLinear(u, v);
      StepsLinear(Step(u), Step(v), n - 1);
    }
  }

  predicate LowBitsClear(c: bv32, n: nat)
    decreases n
  {
    n == 0 || (Even(c) && LowBitsClear(Half(c), n - 1))
  }

  function Shifted(c: bv32, n: nat): bv32
    decreases n
  {
    if n == 0 then c else Shifted(Half(c), n - 1)
  }

  lemma {:induction false} StepsShift(c: bv32, n: nat)
    requires LowBitsClear(c, n)
    ensures Steps(c, n) == Shifted(c, n)
    decreases n
  {
    hide Half, Even, Xor;
    if n > 0 {
      StepsShift(Half(c), n - 1);
    }
  }

  function High(c: bv32): bv32 { c & 0xffffff00 }
  function LowByte(c: bv32): bv32 { c & 0xff }
  function Byte1(c: bv32): bv32 { c >> 8 }

  lemma HighHalves(c: bv32)
    ensures var h := High(c);
      var h4 := Half(Half(Half(Half(h))));
      && Even(h) && Even(Half(h)) && Even(Half(Half(h))) && Even(Half(Half(Half(h))))
      && Even(h4) && Even(Half(h4)) && Even(Half(Half(h4))) && Even(Half(Half(Half(h4))))
      && Half(Half(Half(Half(h4)))) == Byte1(c)
  {}

  lemma HighPart(c: bv32)
    ensures LowBitsClear(High(c), 8) && Shifted(High(c), 8) == Byte1(c)
  {
    HighHalves(c);
    hide Half, Even, High, Byte1;
    var h := High(c);
    var h2 := Half(Half(h));
    var h4 := Half(Half(h2));
    var h6 := Half(Half(h4));
    assert LowBitsClear(h6, 2) && Shifted(h6, 2) == Byte1(c);
    assert LowBitsClear(h4, 4) && Shifted(h4, 4) == Byte1(c);
    assert LowBitsClear(h2, 6) && Shifted(h2, 6) == Byte1(c);
  }

  lemma ByteFits(b: bv32)
    requires b <= 0xff
    ensures Fits(b, 8)
  {
    var b2 := Half(Half(b));
    var b4 := Half(Half(b2));
    var b6 := Half(Half(b4));
    assert Half(Half(b6)) == 0;
    hide Half;
    assert Fits(b6, 2);
    assert Fits(b4, 4);
    assert Fits(b2, 6);
  }

  lemma Halves(c: bv32, b: bv32)
    ensures Xor(High(c), LowByte(c)) == c
    ensures b <= 0xff ==> Byte1(Xor(c, b)) == Byte1(c)
  {}

  /** Eight bits at once are one table lookup. */
  lemma TableStep(c: bv32, b: bv32)
    requires b <= 0xff
    ensures Bits(c, b, 8) == Xor(Byte1(c), Steps(LowByte(Xor(c, b)), 8))
  {
    ByteFits(b);
    hide *;
    BitsAtOnce(c, b, 8);
    var x := Xor(c, b);
    HighPart(x);
    StepsShift(High(x), 8);
    StepsLinear(High(x), LowByte(x), 8);
    Halves(x, 0);
    Halves(c, b);
  }

  // ---------------------------------------------------------------- what the preset does

  /** The register after a buffer that starts from any value. */
  function RegisterFrom(c: bv32, buffer: seq<bv8>): bv32 {
    if buffer == [] then c
    else Bits(RegisterFrom(c, buffer[..|buffer| - 1]), ByteAsBits(buffer[|buffer| - 1]), 8)
  }

  function Not(b: bv8): bv8 { !b }

  function Complemented(f: seq<bv8>): (g: seq<bv8>)
    requires |f| == 4
    ensures |g| == 4
  {
    [Not(f[0]), Not(f[1]), Not(f[2]), Not(f[3])]
  }

  lemma LowDiffers(c: bv32, d: bv32, b: bv8)
    requires d & 0xff == 0xff
    ensures LowByte(Xor(Xor(c, d), ByteAsBits(b))) == LowByte(Xor(c, ByteAsBits(Not(b))))
  {}

  lemma DroppedDiffers(c: bv32, d: bv32)
    ensures Byte1(Xor(c, d)) == Xor(Byte1(c), Byte1(d))
  {}

  /** A register all of whose lower eight bits differ takes a byte as the other takes its complement. */
  lemma ComplementEnters(c: bv32, d: bv32, b: bv8)
    requires d & 0xff == 0xff
    ensures Bits(Xor(c, d), ByteAsBits(b), 8) == Xor(Bits(c, ByteAsBits(Not(b)), 8), Byte1(d))
  {
    LowDiffers(c, d, b);
    DroppedDiffers(c, d);
    ByteIsSmall(b);
    ByteIsSmall(Not(b));
    TableStep(Xor(c, d), ByteAsBits(b));
    TableStep(c, ByteAsBits(Not(b)));
    hide *;
    var t := Steps(LowByte(Xor(c, ByteAsBits(Not(b)))), 8);
    XorAssoc(Byte1(c), Byte1(d), t);
    XorAssoc(Byte1(c), t, Byte1(d));
    XorComm(Byte1(d), t);
  }

  lemma {:induction false} RegisterJoins(c: bv32, a: seq<bv8>, b: seq<bv8>)
    ensures RegisterFrom(c, a + b) == RegisterFrom(RegisterFrom(c, a), b)
    decreases |b|
  {
    hide Bits, ByteAsBits;
    if b == [] {
      assert a + b == a;
    } else {
      RegisterJoins(c, a, b[..|b| - 1]);
      assert (a + b)[..|a + b| - 1] == a + b[..|b| - 1];
    }
  }

  lemma {:induction false} PresetRegister(buffer: seq<bv8>)
    ensures Register(buffer) == RegisterFrom(0xffffffff, buffer)
  {
    hide Bits, ByteAsBits;
    if buffer != [] {
      PresetRegister(buffer[..|buffer| - 1]);
    }
  }

  lemma Ones(c: bv32)
    ensures Byte1(0xffffffff) == 0xffffff && Byte1(0xffffff) == 0xffff && Byte1(0xffff) == 0xff && Byte1(0xff) == 0
    ensures Xor(0, 0xffffffff) == 0xffffffff && Xor(c, 0) == c
  {}

  lemma FromStep(c: bv32, s: seq<bv8>, b: bv8)
    ensures RegisterFrom(c, s + [b]) == Bits(RegisterFrom(c, s), ByteAsBits(b), 8)
  {
    hide Bits, ByteAsBits;
    assert (s + [b])[..|s|] == s;
  }

  lemma FourBytes(c: bv32, f: seq<bv8>)
    requires |f| == 4
    ensures RegisterFrom(c, f) ==
      Bits(Bits(Bits(Bits(c, ByteAsBits(f[0]), 8), ByteAsBits(f[1]), 8), ByteAsBits(f[2]), 8), ByteAsBits(f[3]), 8)
  {
    hide *;
    FromNothing(c);
    FromStep(c, [], f[0]);
    FromStep(c, [] + [f[0]], f[1]);
    FromStep(c, [] + [f[0]] + [f[1]], f[2]);
    FromStep(c, [] + [f[0]] + [f[1]] + [f[2]], f[3]);
    assert [] + [f[0]] + [f[1]] + [f[2]] + [f[3]] == f;
  }

  lemma FromNothing(c: bv32)
    ensures RegisterFrom(c, []) == c
  {}

  /** From a register of ones four bytes count as their complements do from one of zeros. */
  lemma FourOnes(f: seq<bv8>)
    requires |f| == 4
    ensures RegisterFrom(0xffffffff, f) == RegisterFrom(0, Complemented(f))
  {
    FourBytes(0xffffffff, f);
    FourBytes(0, Complemented(f));
    hide Bits, ByteAsBits, RegisterFrom, Xor, Byte1, Not;
    var c1 := Bits(0, ByteAsBits(Not(f[0])), 8);
    var c2 := Bits(c1, ByteAsBits(Not(f[1])), 8);
    var c3 := Bits(c2, ByteAsBits(Not(f[2])), 8);
    var c4 := Bits(c3, ByteAsBits(Not(f[3])), 8);
    Ones(c4);
    ComplementEnters(0, 0xffffffff, f[0]);
    ComplementEnters(c1, 0xffffff, f[1]);
    ComplementEnters(c2, 0xffff, f[2]);
    ComplementEnters(c3, 0xff, f[3]);
  }

  /** The preset of ones complements the first four bytes, so that zeros in front of a message count. */
  lemma PresetComplements(buffer: seq<bv8>)
    requires |buffer| >= 4
    ensures Register(buffer) == RegisterFrom(0, Complemented(buffer[..4]) + buffer[4..])
  {
    hide *;
    assert buffer == buffer[..4] + buffer[4..];
    PresetRegister(buffer);
    RegisterJoins(0xffffffff, buffer[..4], buffer[4..]);
    RegisterJoins(0, Complemented(buffer[..4]), buffer[4..]);
    FourOnes(buffer[..4]);
  }

  function Turned8(c: bv32): bv32 { Step(Step(Step(Step(Step(Step(Step(Step(c)))))))) }

  lemma EightSteps(c: bv32)
    ensures Steps(c, 8) == Turned8(c)
  {
    hide Step;
    var c4 := Step(Step(Step(Step(c))));
    assert Steps(c4, 4) == Steps(Step(Step(c4)), 2) == Step(Step(Step(Step(c4))));
    assert Steps(c, 8) == Steps(Step(Step(c)), 6) == Steps(c4, 4);
  }

  lemma ByteTurned(c: bv32, b: bv8)
    ensures Bits(c, ByteAsBits(b), 8) == Turned8(Xor(c, ByteAsBits(b)))
  {
    ByteIsSmall(b);
    hide ByteAsBits, Bits, Turned8;
    ByteFits(ByteAsBits(b));
    BitsAtOnce(c, ByteAsBits(b), 8);
    EightSteps(Xor(c, ByteAsBits(b)));
  }

  /** The registers of the digits 1 to 9. */
  lemma DigitRegisters()
    ensures Turned8(Xor(0xffffffff, ByteAsBits(0x31))) == 0x7c231048
    ensures Turned8(Xor(0x7c231048, ByteAsBits(0x32))) == 0xb0acbb32
    ensures Turned8(Xor(0xb0acbb32, ByteAsBits(0x33))) == 0x77b79c2d
    ensures Turned8(Xor(0x77b79c2d, ByteAsBits(0x34))) == 0x641c1f5c
    ensures Turned8(Xor(0x641c1f5c, ByteAsBits(0x35))) == 0x340ac5e3
    ensures Turned8(Xor(0x340ac5e3, ByteAsBits(0x36))) == 0xf68d2c9e
    ensures Turned8(Xor(0xf68d2c9e, ByteAsBits(0x37))) == 0xaffc9660
    ensures Turned8(Xor(0xaffc9660, ByteAsBits(0x38))) == 0x651f2550
    ensures Turned8(Xor(0x651f2550, ByteAsBits(0x39))) == 0x340bc6d9
  {}

  /** The usual check value, that of the digits from 1 to 9. */
  lemma CheckValue()
    ensures Crc([0x31, 0x32, 0x33, 0x34, 0x35, 0x36, 0x37, 0x38, 0x39]) == 0xcbf43926
  {
    DigitRegisters();
    hide Bits, ByteAsBits, Turned8, Xor, Register, RegisterFrom;
    var s: seq<bv8> := [];
    FromNothing(0xffffffff);
    s := Extended(s, 0xffffffff, 0x31);
    s := Extended(s, 0x7c231048, 0x32);
    s := Extended(s, 0xb0acbb32, 0x33);
    s := Extended(s, 0x77b79c2d, 0x34);
    s := Extended(s, 0x641c1f5c, 0x35);
    s := Extended(s, 0x340ac5e3, 0x36);
    s := Extended(s, 0xf68d2c9e, 0x37);
    s := Extended(s, 0xaffc9660, 0x38);
    s := Extended(s, 0x651f2550, 0x39);
    PresetRegister(s);
    assert s == [0x31, 0x32, 0x33, 0x34, 0x35, 0x36, 0x37, 0x38, 0x39];
  }

  lemma Extended(s: seq<bv8>, c: bv32, b: bv8) returns (t: seq<bv8>)
    requires RegisterFrom(0xffffffff, s) == c
    ensures t == s + [b] && RegisterFrom(0xffffffff, t) == Turned8(Xor(c, ByteAsBits(b)))
  {
    hide *;
    t := s + [b];
    FromStep(0xffffffff, s, b);
    ByteTurned(c, b);
  }

  // ---------------------------------------------------------------- the program's words

  // `unsigned long`, of which the upper half stays clear until the end.
  type Long = bv64

  function Wide(x: bv32): Long { x as Long }
  function Low32(x: Long): bv32 { (x & 0xffffffff) as bv32 }
  function ByteAsBits(b: bv8): bv32 { b as bv32 }

  /** `*p` of a signed char. */
  function SignExtended(b: bv8): Long {
    if b & 0x80 == 0 then b as Long else (b as Long) | 0xffffffffffffff00
  }

  predicate Odd64(c: Long) { c & 1 == 1 }
  function Half64(c: Long): Long { c >> 1 }
  function Xor64(a: Long, b: Long): Long { a ^ b }

  function Turn(c: Long): Long {
    if Odd64(c) then Xor64(0xedb88320, Half64(c)) else Half64(c)
  }

  /** The byte that selects the table entry. */
  function Selector(crc: Long, p: Long): bv8 { Low8(Xor64(crc, p)) }

  function Low8(x: Long): bv8 { (x & 0xff) as bv8 }

  function Combine(crc: Long, entry: Long): Long { Xor64(Drop8(crc), entry) }

  function Drop8(x: Long): Long { x >> 8 }

  function Complement(crc: Long): Long { !crc }

  lemma WideHalf(c: bv32)
    ensures Odd64(Wide(c)) == !Even(c) && Half64(Wide(c)) == Wide(Half(c))
  {}

  lemma WideXor(a: bv32, b: bv32)
    ensures Xor64(Wide(a), Wide(b)) == Wide(Xor(a, b))
  {}

  lemma WidePoly()
    ensures Wide(POLY) == 0xedb88320
  {}

  lemma TurnIsStep(c: bv32)
    ensures Turn(Wide(c)) == Wide(Step(c))
  {
    hide Wide, Half, Half64, Odd64, Even, Xor, Xor64;
    WideHalf(c);
    WidePoly();
    WideXor(POLY, Half(c));
  }

  lemma LowOfXor(a: Long, b: Long)
    ensures Low8(Xor64(a, b)) == Low8(a) ^ Low8(b)
  {}

  lemma LowOfSign(b: bv8)
    ensures Low8(SignExtended(b)) == b
  {}

  lemma LowByteOfXor(c: bv32, b: bv8)
    ensures ByteAsBits(Low8(Wide(c)) ^ b) == LowByte(Xor(c, ByteAsBits(b)))
  {}

  lemma SelectorIsLowByte(c: bv32, b: bv8)
    ensures ByteAsBits(Selector(Wide(c), SignExtended(b))) == LowByte(Xor(c, ByteAsBits(b)))
  {
    hide Wide, SignExtended, ByteAsBits, Low8, LowByte, Xor, Xor64;
    LowOfXor(Wide(c), SignExtended(b));
    LowOfSign(b);
    LowByteOfXor(c, b);
  }

  lemma CombineIsXor(c: bv32, t: bv32)
    ensures Combine(Wide(c), Wide(t)) == Wide(Xor(Byte1(c), t))
  {
    hide Wide, Xor, Xor64, Byte1, Drop8;
    WideDrop(c);
    WideXor(Byte1(c), t);
  }

  lemma DropHalves(x: Long)
    ensures Drop8(x) == Half64(Half64(Half64(Half64(Half64(Half64(Half64(Half64(x))))))))
  {}

  lemma ByteHalves(c: bv32)
    ensures Byte1(c) == Half(Half(Half(Half(Half(Half(Half(Half(c))))))))
  {}

  lemma WideDrop(c: bv32)
    ensures Drop8(Wide(c)) == Wide(Byte1(c))
  {
    DropHalves(Wide(c));
    ByteHalves(c);
    hide Wide, Half, Half64, Odd64, Even, Drop8, Byte1;
    forall x: bv32 ensures Half64(Wide(x)) == Wide(Half(x)) {
      WideHalf(x);
    }
  }

  lemma ComplementLow(c: bv32)
    ensures Low32(Complement(Wide(c))) == !c
  {}

  lemma IndexIsByte(b: bv8)
    ensures (b as nat) as bv8 == b
  {}

  lemma ByteIsSmall(b: bv8)
    ensures ByteAsBits(b) <= 0xff
  {}

  function Entry(i: nat): Long
    requires i < 256
  {
    Wide(Steps(ByteAsBits(i as bv8), 8))
  }

  class Checksum {
    const table: array<Long>
    var isInitialized: bool

    ghost predicate Valid()
      reads this, table
    {
      && table.Length == 256
      && (isInitialized ==> forall i :: 0 <= i < 256 ==> table[i] == Entry(i))
    }

    constructor ()
      ensures Valid() && fresh(table)
    {
      table := new Long[256];
      isInitialized := false;
    }

    method FillTable()
      requires Valid()
      modifies this`isInitialized, table
      ensures Valid() && isInitialized
    {
      hide Wide, Turn, Step, ByteAsBits;
      for i := 0 to 256
        invariant table.Length == 256 && forall k :: 0 <= k < i ==> table[k] == Entry(k)
      {
        ghost var x := ByteAsBits(i as bv8);
        var c := Wide(ByteAsBits(i as bv8));
        for j := 0 to 8
          invariant c == Wide(x) && Steps(x, 8 - j) == Steps(ByteAsBits(i as bv8), 8)
          invariant forall k :: 0 <= k < i ==> table[k] == Entry(k)
        {
          TurnIsStep(x);
          c := Turn(c);
          x := Step(x);
        }
        assert c == Entry(i);
        table[i] := c;
      }
      isInitialized := true;
    }

    /** The low 32 bits of the result are the CRC of the buffer, for every buffer. */
    method Crc32Buf(buffer: seq<bv8>) returns (crc: Long)
      requires Valid()
      modifies this`isInitialized, table
      ensures Valid() && isInitialized && Low32(crc) == Crc(buffer)
    {
      if !isInitialized {
        FillTable();
      }
      hide Wide, Selector, Combine, Complement, Low32, SignExtended, ByteAsBits, Steps, Bits, Xor;
      ghost var register: bv32 := 0xffffffff;
      crc := 0xffffffff;
      assert crc == Wide(0xffffffff) by { OnesWide(); }
      var p := 0;
      while p < |buffer|
        invariant 0 <= p <= |buffer|
        invariant register == Register(buffer[..p]) && crc == Wide(register)
        invariant Valid() && isInitialized
      {
        var b := buffer[p];
        var k := Selector(crc, SignExtended(b));
        SelectorIsLowByte(register, b);
        IndexIsByte(k);
        ByteIsSmall(b);
        TableStep(register, ByteAsBits(b));
        CombineIsXor(register, Steps(ByteAsBits(k), 8));
        RegisterStep(buffer, p);
        crc := Combine(crc, table[k as nat]);
        register := Bits(register, ByteAsBits(b), 8);
        p := p + 1;
      }
      assert buffer[..p] == buffer;
      ComplementLow(register);
      crc := Complement(crc);
    }
  }

  lemma OnesWide()
    ensures Wide(0xffffffff) == 0xffffffff
  {}

  lemma RegisterStep(buffer: seq<bv8>, p: nat)
    requires p < |buffer|
    ensures Register(buffer[..p + 1]) == Bits(Register(buffer[..p]), ByteAsBits(buffer[p]), 8)
  {
    assert buffer[..p + 1][..p] == buffer[..p];
  }
}
