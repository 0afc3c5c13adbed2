/**
 * The fixed-point multiplications: partial products in 32-bit unsigned
 * arithmetic against the exact product.
 */
module Fixpoint {
  const PREC: nat := 4096         // 1 << FIXPOINT_PREC
  const SOUND_PREC: nat := 1024   // 1 << SOUNDCLK_PREC
  const WORD: nat := 0x1_0000_0000

  function Abs(x: int): nat {
    if x < 0 then -x else x
  }

  predicate IsInt32(x: int) {
    -0x8000_0000 <= x < 0x8000_0000
  }

  /** A 32-bit word read as a signed number. */
  function Signed(u: int): (x: int)
    ensures IsInt32(x)
  {
    var w := u % WORD;
    if w < 0x8000_0000 then w else w - WORD
  }

  /** The sum of the partial products, in 32-bit arithmetic. */
  function Magnitude(x: nat, y: nat): nat {
    var a, b := x / PREC, x % PREC;
    var c, d := y / PREC, y % PREC;
    (a * c * PREC + (a * d + b * c) + (b * d + PREC / 2) % WORD / PREC) % WORD
  }

  function FixpointMult(x: int, y: int): int {
    var m: int := Magnitude(Abs(x), Abs(y));
    if (x < 0) != (y < 0) then Signed(-m) else Signed(m)
  }

  /** The product over 2^12, rounded to the nearest integer, halves away from zero. */
  function Rounded(p: int): int {
    if p < 0 then -((-p + PREC / 2) / PREC) else (p + PREC / 2) / PREC
  }

  /** No integer is nearer to p / 2^12, and of two equally near ones the larger in size is taken. */
  lemma RoundedIsNearest(p: int, q: int)
    ensures Abs(4096 * Rounded(p) - p) <= Abs(4096 * q - p)
    ensures Abs(4096 * Rounded(p) - p) == Abs(4096 * q - p) ==> Abs(q) <= Abs(Rounded(p))
  {
    var r := Rounded(p);
    assert 2 * Abs(PREC * r - p) <= PREC;
    if q != r {
      assert Abs(PREC * q - PREC * r) >= PREC;
    }
  }

  lemma SplitProduct(a: nat, b: nat, c: nat, d: nat)
    ensures (a * PREC + b) * (c * PREC + d) == (a * c * PREC + (a * d + b * c)) * PREC + b * d
  {
    assert (a * PREC + b) * (c * PREC + d) == a * PREC * (c * PREC) + a * PREC * d + b * (c * PREC) + b * d;
  }

  /** The product of the fractions does not overflow. */
  lemma SmallProduct(b: nat, d: nat, prec: nat)
    requires b < prec && d < prec
    ensures b * d <= prec * prec
  {
    assert b * d <= b * prec <= prec * prec;
  }

  /** The partial products add up to the rounded product, modulo the word. */
  lemma MagnitudeIsRounded(x: nat, y: nat)
    ensures Magnitude(x, y) == Rounded(x * y) % WORD
  {
    var a, b := x / PREC, x % PREC;
    var c, d := y / PREC, y % PREC;
    var k, r := a * c * PREC + (a * d + b * c), b * d;
    SplitProduct(a, b, c, d);
    SmallProduct(b, d, PREC);
    ModFits(r + PREC / 2, WORD);
    DivSplit(k, r);
  }

  lemma DivSplit(k: nat, r: nat)
    ensures (k * PREC + r + PREC / 2) / PREC == k + (r + PREC / 2) / PREC
  {}

  lemma ModFits(v: nat, size: nat)
    requires size > 0
    ensures v % size == v <==> v < size
  {}

  /** Reading a word as a signed number gives back exactly the 32-bit signed numbers. */
  lemma SignedOf(v: int)
    ensures Signed(v) == v <==> IsInt32(v)
  {}

  lemma SignedOfMod(v: nat)
    ensures Signed(v % WORD) == Signed(v)
    ensures Signed(-((v % WORD) as int)) == Signed(-(v as int))
  {
    var k, r: int := v / WORD, v % WORD;
    assert -(v as int) == -r - k * WORD;
    ModShift(-r, -k);
  }

  lemma ModShift(r: int, k: int)
    ensures (r + k * WORD) % WORD == r % WORD
  {}

  lemma SignOfProduct(x: int, y: int)
    ensures Abs(x) * Abs(y) == Abs(x * y)
    ensures x * y < 0 ==> (x < 0) != (y < 0)
    ensures x * y > 0 ==> (x < 0) == (y < 0)
  {}

  /** The result is right exactly when the rounded product is a 32-bit signed number. */
  lemma FixpointMultIsRounded(x: int, y: int)
    requires IsInt32(x) && IsInt32(y)
    ensures FixpointMult(x, y) == Rounded(x * y) <==> IsInt32(Rounded(x * y))
  {
    MagnitudeIsRounded(Abs(x), Abs(y));
    SignOfProduct(x, y);
    var p := x * y;
    var m := Rounded(Abs(p));
    hide Magnitude, Signed, IsInt32;
    SignedOfMod(m);
    SignedOf(Rounded(p));
    if p == 0 {
      assert m == 0;
    }
  }

  // ---------------------------------------------------------------- sound clock

  /** The split product in an unsigned long whose number of values is `size`. */
  function SoundclkMult(a: nat, b: nat, size: nat): nat
    requires size >= WORD
  {
    var ia, fa := a / SOUND_PREC, a % SOUND_PREC;
    var ib, fb := b / SOUND_PREC, b % SOUND_PREC;
    (ia * ib * SOUND_PREC + (ia * fb + ib * fa) + fa * fb % size / SOUND_PREC) % size
  }

  lemma SplitSound(ia: nat, fa: nat, ib: nat, fb: nat)
    ensures (ia * SOUND_PREC + fa) * (ib * SOUND_PREC + fb) ==
      (ia * ib * SOUND_PREC + (ia * fb + ib * fa)) * SOUND_PREC + fa * fb
  {
    assert (ia * SOUND_PREC + fa) * (ib * SOUND_PREC + fb) ==
      ia * SOUND_PREC * (ib * SOUND_PREC) + ia * SOUND_PREC * fb + fa * (ib * SOUND_PREC) + fa * fb;
  }

  /** It is the exact product over 2^10, rounded down, exactly when that fits the type. */
  lemma SoundclkMultIsFloor(a: nat, b: nat, size: nat)
    requires size >= WORD
    ensures SoundclkMult(a, b, size) == a * b / 1024 % size
    ensures SoundclkMult(a, b, size) == a * b / 1024 <==> a * b / 1024 < size
  {
    var ia, fa := a / SOUND_PREC, a % SOUND_PREC;
    var ib, fb := b / SOUND_PREC, b % SOUND_PREC;
    var k, r := ia * ib * SOUND_PREC + (ia * fb + ib * fa), fa * fb;
    SplitSound(ia, fa, ib, fb);
    SmallProduct(fa, fb, SOUND_PREC);
    ModFits(fa * fb, size);
    assert a * b == k * SOUND_PREC + r;
    assert (k * SOUND_PREC + r) / SOUND_PREC == k + r / SOUND_PREC;
    ModFits(k + r / SOUND_PREC, size);
  }
}
