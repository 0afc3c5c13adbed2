/**
 * The cartridge packer: a binary cut into chip packages and put together
 * again, for cartridges of equal banks and for EasyFlash images, whose empty
 * half banks are not written.
 */
module Cartconv {
  type Byte = b: int | 0 <= b < 256

  const HALF: nat := 0x2000
  const FLASH: nat := 0x100000
  const HALVES: nat := 128
  const BUFFER: nat := 0x100002

  // ---------------------------------------------------------------- chip packages

  function HighByte(x: nat): Byte { x / 0x100 % 0x100 }
  function LowByte(x: nat): Byte { x % 0x100 }

  function ChipHeader(length: nat, bank: nat, address: nat, kind: Byte): (h: seq<Byte>)
    ensures |h| == 16
  {
    ['C' as int, 'H' as int, 'I' as int, 'P' as int,
     0, 0, HighByte(length + 0x10), LowByte(length + 0x10),
     0, kind, 0, LowByte(bank), HighByte(address), LowByte(address), HighByte(length), LowByte(length)]
  }

  predicate IsChip(h: seq<Byte>)
    requires |h| == 16
  {
    h[0] == 'C' as int && h[1] == 'H' as int && h[2] == 'I' as int && h[3] == 'P' as int
  }

  /** The length of the contents, from the length of the package. */
  function ChipLength(h: seq<Byte>): nat
    requires |h| == 16
  {
    (0x1000000 * h[4] as int + 0x10000 * h[5] as int + 0x100 * h[6] as int + h[7] as int - 16) % 0x1_0000_0000
  }

  function ChipAddress(h: seq<Byte>): nat
    requires |h| == 16
  {
    0x100 * h[12] as int + h[13] as int
  }

  lemma HeaderReads(length: nat, bank: nat, address: nat, kind: Byte)
    requires length + 0x10 < 0x10000 && address < 0x10000
    ensures var h := ChipHeader(length, bank, address, kind);
      && IsChip(h) && ChipLength(h) == length && ChipAddress(h) == address
      && h[11] == LowByte(bank) && h[12] == HighByte(address)
  {
    assert 0x100 * HighByte(length + 0x10) as int + LowByte(length + 0x10) as int == length + 0x10;
  }

  /** A number of two bytes, the higher one first. */
  function Word(b: seq<Byte>): nat
    requires |b| == 2
  {
    0x100 * b[0] as int + b[1] as int
  }

  /** What the sixteen bytes say: signature, length of the package, type, bank, address and size of the contents. */
  lemma HeaderLayout(length: nat, bank: nat, address: nat, kind: Byte)
    requires length + 0x10 < 0x10000 && address < 0x10000
    ensures var h := ChipHeader(length, bank, address, kind);
      && h[..4] == [0x43, 0x48, 0x49, 0x50]
      && h[4..6] == [0, 0] && Word(h[6..8]) == length + 0x10 && Word(h[8..10]) == kind as int
      && Word(h[10..12]) == bank % 0x100 && Word(h[12..14]) == address && Word(h[14..16]) == length
  {
    Halves16(length + 0x10);
    Halves16(address);
    Halves16(length);
  }

  /** The length of a package is four bytes, the highest first, and counts its header. */
  lemma LengthReads(h: seq<Byte>, n: nat)
    requires |h| == 16 && 16 <= n < 0x1_0000_0000
    requires h[4..8] == [n / 0x1000000, n / 0x10000 % 0x100, n / 0x100 % 0x100, n % 0x100]
    ensures ChipLength(h) == n - 16
  {
    var a := n / 0x100;
    var c := a / 0x100;
    assert n / 0x10000 == c && n / 0x1000000 == c / 0x100;
    assert h[4] == h[4..8][0] && h[5] == h[4..8][1] && h[6] == h[4..8][2] && h[7] == h[4..8][3];
  }

  lemma Halves16(x: nat)
    requires x < 0x10000
    ensures 0x100 * HighByte(x) as int + LowByte(x) as int == x
  {}

  // ---------------------------------------------------------------- equal banks

  /** One bank and its number. */
  function BankBytes(bank: seq<Byte>, i: nat, address: nat, kind: Byte): (w: seq<Byte>)
    ensures |w| == 16 + |bank|
  {
    ChipHeader(|bank|, i, address, kind) + bank
  }

  /** The packages of n banks, the first of them number i, cut from the front of the file. */
  function RegularBytes(file: seq<Byte>, length: nat, i: nat, n: nat, address: nat, kind: Byte): seq<Byte>
    requires n * length <= |file|
    decreases n
  {
    if n == 0 then []
    else
      OneBank(length, n);
      BankBytes(file[..length], i, address, kind) + RegularBytes(file[length..], length, i + 1, n - 1, address, kind)
  }

  /** A header and its contents lie there. */
  predicate PackageAt(b: seq<Byte>, p: nat, h: seq<Byte>, bank: seq<Byte>)
    requires |h| == 16
  {
    p + 16 + |bank| <= |b| && b[p..p + 16] == h && b[p + 16..p + 16 + |bank|] == bank
  }

  lemma PackageBehind(a: seq<Byte>, b: seq<Byte>, p: nat, h: seq<Byte>, bank: seq<Byte>)
    requires |h| == 16 && PackageAt(b, p, h, bank)
    ensures PackageAt(a + b, |a| + p, h, bank)
  {
    Behind(a, b, p, 16);
    Behind(a, b, p + 16, |bank|);
  }

  lemma Behind(a: seq<Byte>, b: seq<Byte>, p: nat, n: nat)
    requires p + n <= |b|
    ensures (a + b)[|a| + p..|a| + p + n] == b[p..p + n]
  {}

  /** The k-th piece of a file. */
  function Piece(file: seq<Byte>, length: nat, k: nat): seq<Byte>
    requires |file| >= length
    decreases k
  {
    if k == 0 then file[..length] else if |file| < 2 * length then [] else Piece(file[length..], length, k - 1)
  }

  lemma {:induction false} PieceIs(file: seq<Byte>, length: nat, k: nat)
    requires k * length + length <= |file|
    ensures |file| >= length && k * length >= 0 && Piece(file, length, k) == file[k * length..k * length + length]
    decreases k
  {
    if k > 0 {
      OneBank(length, k);
      PieceIs(file[length..], length, k - 1);
      var at := (k - 1) * length;
      Behind(file[..length], file[length..], at, length);
      assert file[..length] + file[length..] == file;
    }
  }

  /** Package k of equal banks: its place, its number and its contents. */
  lemma {:induction false} RegularPackage(file: seq<Byte>, length: nat, i: nat, n: nat, address: nat, kind: Byte,
      k: nat)
    requires 0 < length && n * length <= |file| && k < n
    ensures |file| >= length && k * (16 + length) >= 0
    ensures PackageAt(RegularBytes(file, length, i, n, address, kind), k * (16 + length),
      ChipHeader(length, i + k, address, kind), Piece(file, length, k))
    decreases n
  {
    hide ChipHeader;
    OneBank(length, n);
    var w, rest := BankBytes(file[..length], i, address, kind),
      RegularBytes(file[length..], length, i + 1, n - 1, address, kind);
    assert RegularBytes(file, length, i, n, address, kind) == w + rest;
    assert w == ChipHeader(length, i, address, kind) + file[..length];
    hide RegularBytes, BankBytes;
    if k == 0 {
      FirstPackage(ChipHeader(length, i, address, kind), file[..length], rest);
    } else {
      OneBank(16 + length, k);
      OneBank(length, n - 1);
      RegularPackage(file[length..], length, i + 1, n - 1, address, kind, k - 1);
      PackageBehind(w, rest, (k - 1) * (16 + length), ChipHeader(length, i + k, address, kind),
        Piece(file[length..], length, k - 1));
    }
  }

  lemma FirstPackage(h: seq<Byte>, bank: seq<Byte>, rest: seq<Byte>)
    requires |h| == 16
    ensures PackageAt(h + bank + rest, 0, h, bank)
  {}

  lemma OneBank(length: nat, n: nat)
    requires n > 0
    ensures n * length == length + (n - 1) * length && (n - 1) * length >= 0
  {}

  /** Outside where the next bytes read would leave the buffer; there the model stops. */
  datatype Loaded = Failed | Outside | Loaded(data: seq<Byte>)

  /** The bytes the file still has of so many from p on. */
  function Left(b: seq<Byte>, p: nat, length: nat): (n: nat)
    requires p <= |b|
    ensures n <= length && p + n <= |b|
  {
    if p + length <= |b| then length else |b| - p
  }

  /** The contents of the packages from p on, after what has been loaded so far. */
  function LoadBanks(b: seq<Byte>, p: nat, done: seq<Byte>): Loaded
    decreases |b| - p
  {
    if p + 16 > |b| then (if done == [] then Failed else Loaded(done))
    else
      var h := b[p..p + 16];
      if !IsChip(h) then Failed
      else
        var n := Left(b, p + 16, ChipLength(h));
        if n > 0 && |done| + n > BUFFER then Outside
        else if n < ChipLength(h) then Failed
        else LoadBanks(b, p + 16 + n, done + b[p + 16..p + 16 + n])
  }

  /** Sixteen bytes more have to be a package; fewer are left alone, but something must have been loaded. */
  lemma BanksEnd(b: seq<Byte>, p: nat, done: seq<Byte>)
    requires p <= |b|
    ensures |b| - p < 16 ==> LoadBanks(b, p, done) == if done == [] then Failed else Loaded(done)
    ensures |b| - p >= 16 && b[p..p + 4] != [0x43, 0x48, 0x49, 0x50] ==> LoadBanks(b, p, done) == Failed
  {
    if |b| - p >= 16 {
      assert b[p..p + 16][..4] == b[p..p + 4];
    }
  }

  lemma BankLoads(bank: seq<Byte>, i: nat, address: nat, kind: Byte, before: seq<Byte>, rest: seq<Byte>,
    done: seq<Byte>)
    requires |bank| + 0x10 < 0x10000 && address < 0x10000
    ensures var b := before + BankBytes(bank, i, address, kind) + rest;
      LoadBanks(b, |before|, done) ==
        if bank != [] && |done| + |bank| > BUFFER then Outside
        else LoadBanks(b, |before| + 16 + |bank|, done + bank)
  {
    hide ChipHeader, ChipLength, IsChip, ChipAddress, HighByte, LowByte;
    var h := ChipHeader(|bank|, i, address, kind);
    HeaderReads(|bank|, i, address, kind);
    assert BankBytes(bank, i, address, kind) == h + bank;
    hide BankBytes;
    PackageLoads(h, bank, before, rest, done);
  }

  lemma PackageLoads(h: seq<Byte>, bank: seq<Byte>, before: seq<Byte>, rest: seq<Byte>, done: seq<Byte>)
    requires |h| == 16 && IsChip(h) && ChipLength(h) == |bank|
    ensures var b := before + (h + bank) + rest;
      LoadBanks(b, |before|, done) ==
        if bank != [] && |done| + |bank| > BUFFER then Outside
        else LoadBanks(b, |before| + 16 + |bank|, done + bank)
  {
    hide ChipLength, IsChip, LoadBanks;
    var b, p := before + (h + bank) + rest, |before|;
    assert b[p..p + 16] == h;
    assert b[p + 16..p + 16 + |bank|] == bank;
    LoadBanksStep(b, p, done);
  }

  lemma LoadBanksStep(b: seq<Byte>, p: nat, done: seq<Byte>)
    requires p + 16 <= |b|
    ensures var h := b[p..p + 16];
      var length := ChipLength(h);
      IsChip(h) && p + 16 + length <= |b| ==>
        LoadBanks(b, p, done) ==
          if length > 0 && |done| + length > BUFFER then Outside
          else LoadBanks(b, p + 16 + length, done + b[p + 16..p + 16 + length])
  {
    hide ChipLength, IsChip;
  }

  /** Loading what the regular saver has written gives back the banks, as long as they fit the buffer. */
  lemma {:induction false} RegularRoundTrip(file: seq<Byte>, length: nat, i: nat, n: nat, address: nat, kind: Byte,
      before: seq<Byte>, done: seq<Byte>)
    requires 0 < length && length + 0x10 < 0x10000 && address < 0x10000
    requires n * length <= |file| && (n > 0 || done != [])
    ensures LoadBanks(before + RegularBytes(file, length, i, n, address, kind), |before|, done) ==
      if n > 0 && |done| + n * length > BUFFER then Outside else Loaded(done + file[..n * length])
    decreases n
  {
    hide ChipHeader, ChipLength, IsChip, BankBytes;
    if n > 0 {
      OneBank(length, n);
      var bank, more := file[..length], file[length..];
      var w, rest := BankBytes(bank, i, address, kind), RegularBytes(more, length, i + 1, n - 1, address, kind);
      BankLoads(bank, i, address, kind, before, rest, done);
      assert before + (w + rest) == before + w + rest;
      RegularRoundTrip(more, length, i + 1, n - 1, address, kind, before + w, done + bank);
      assert bank + more[..(n - 1) * length] == file[..n * length];
      assert done + bank + more[..(n - 1) * length] == done + (bank + more[..(n - 1) * length]);
    } else {
      assert done + file[..0] == done;
    }
  }

  /** A binary of n equal banks comes back as it was, if the buffer holds it. */
  lemma RegularLoads(file: seq<Byte>, length: nat, n: nat, address: nat, kind: Byte)
    requires 0 < length && length + 0x10 < 0x10000 && address < 0x10000 && 0 < n && |file| == n * length
    ensures LoadBanks(RegularBytes(file, length, 0, n, address, kind), 0, []) ==
      if |file| > BUFFER then Outside else Loaded(file)
  {
    hide RegularBytes, LoadBanks;
    RegularRoundTrip(file, length, 0, n, address, kind, [], []);
    var w := RegularBytes(file, length, 0, n, address, kind);
    assert [] + w == w && [] + file[..n * length] == file;
  }

  // ---------------------------------------------------------------- EasyFlash

  predicate Empty(half: seq<Byte>) {
    forall i :: 0 <= i < |half| ==> half[i] == 0xff
  }

  function Half(file: seq<Byte>, k: nat): seq<Byte>
    requires (k + 1) * HALF <= |file|
  {
    file[k * HALF..k * HALF + HALF]
  }

  function HalfAddress(k: nat): nat {
    if k % 2 == 0 then 0x8000 else 0xa000
  }

  /** The packages of half banks k up to the last; empty ones are left out. */
  function FlashBytes(file: seq<Byte>, k: nat): seq<Byte>
    requires |file| == FLASH && k <= HALVES
    decreases HALVES - k
  {
    if k == HALVES then []
    else
      (if Empty(Half(file, k)) then []
        else ChipHeader(HALF, k / 2, HalfAddress(k), 0) + Half(file, k)) + FlashBytes(file, k + 1)
  }

  lemma FlashStep(file: seq<Byte>, k: nat, before: seq<Byte>)
    requires |file| == FLASH && k < HALVES
    ensures before + FlashBytes(file, k) ==
      (if Empty(Half(file, k)) then before else before + (ChipHeader(HALF, k / 2, HalfAddress(k), 0) + Half(file, k)))
        + FlashBytes(file, k + 1)
  {
    hide ChipHeader, Empty;
    var w, rest := ChipHeader(HALF, k / 2, HalfAddress(k), 0) + Half(file, k), FlashBytes(file, k + 1);
    assert [] + rest == rest && before + (w + rest) == before + w + rest;
  }

  function FlashPosition(h: seq<Byte>): nat
    requires |h| == 16
  {
    h[11] as int * 0x4000 + if h[12] == 0x80 then 0 else 0x2000
  }

  /** The half banks found from p on, put in their places. */
  function LoadFlash(b: seq<Byte>, p: nat, buffer: seq<Byte>, any: bool): Loaded
    requires |buffer| == FLASH
    decreases |b| - p
  {
    if p + 16 > |b| then (if any then Loaded(buffer) else Failed)
    else
      var h := b[p..p + 16];
      if !IsChip(h) then Failed
      else if LeavesBuffer(b, p) then Outside
      else if Left(b, p + 16, HALF) < HALF then Failed
      else
        InsideIsPlace(b, p);
        LoadFlash(b, p + 16 + HALF, Put(buffer, FlashPosition(h), b[p + 16..p + 16 + HALF]), true)
  }

  lemma FlashTail(b: seq<Byte>, p: nat, buffer: seq<Byte>, any: bool)
    requires |buffer| == FLASH && p <= |b|
    ensures |b| - p < 16 ==> LoadFlash(b, p, buffer, any) == if any then Loaded(buffer) else Failed
    ensures |b| - p >= 16 && b[p..p + 4] != [0x43, 0x48, 0x49, 0x50] ==> LoadFlash(b, p, buffer, any) == Failed
  {
    if |b| - p >= 16 {
      assert b[p..p + 16][..4] == b[p..p + 4];
    }
  }

  /** What the package at p holds would be put past the end of the buffer. */
  predicate LeavesBuffer(b: seq<Byte>, p: nat)
    requires p + 16 <= |b|
  {
    var n := Left(b, p + 16, HALF);
    n > 0 && FlashPosition(b[p..p + 16]) + n > BUFFER
  }

  /** A package stays in the buffer exactly up to bank 63, or when it is the last two bytes of a file in bank 64. */
  lemma InsideIsPlace(b: seq<Byte>, p: nat)
    requires p + 16 <= |b|
    ensures var n := Left(b, p + 16, HALF);
      LeavesBuffer(b, p) <==> n > 0 && b[p + 11] > 63 && !(n <= 2 && b[p + 11] == 64 && b[p + 12] == 0x80)
    ensures Left(b, p + 16, HALF) == HALF ==> (LeavesBuffer(b, p) <==> FlashPosition(b[p..p + 16]) + HALF > FLASH)
  {
    var h := b[p..p + 16];
    assert h[11] == b[p + 11] && h[12] == b[p + 12];
  }

  /** Where package k begins. */
  function Package(k: nat): nat { k * (16 + HALF) }

  predicate ChipAt(b: seq<Byte>, k: nat) {
    Package(k) + 16 <= |b| && IsChip(b[Package(k)..Package(k) + 16])
  }

  /** The loader leaves its buffer exactly when some package does that only packages come before. */
  lemma {:induction false} FlashOutside(b: seq<Byte>, k: nat, buffer: seq<Byte>, any: bool)
    requires |buffer| == FLASH
    ensures LoadFlash(b, Package(k), buffer, any) == Outside <==>
      exists m :: k <= m && ChipAt(b, m) && LeavesBuffer(b, Package(m)) && forall j :: k <= j < m ==> ChipAt(b, j)
    decreases |b| - Package(k)
  {
    hide IsChip, LeavesBuffer, FlashPosition, Put;
    assert Package(k + 1) == Package(k) + 16 + HALF;
    if ChipAt(b, k) && !LeavesBuffer(b, Package(k)) && Left(b, Package(k) + 16, HALF) == HALF {
      InsideIsPlace(b, Package(k));
      var p := Package(k);
      var h := b[p..p + 16];
      FlashOutside(b, k + 1, Put(buffer, FlashPosition(h), b[p + 16..p + 16 + HALF]), true);
    } else if ChipAt(b, k) && !LeavesBuffer(b, Package(k)) {
      assert !ChipAt(b, k + 1);
    }
  }

  function Put(buffer: seq<Byte>, at: nat, x: seq<Byte>): (r: seq<Byte>)
    requires at + |x| <= |buffer|
    ensures |r| == |buffer|
  {
    buffer[..at] + x + buffer[at + |x|..]
  }

  lemma FlashHeaderReads(k: nat)
    requires k < HALVES
    ensures var h := ChipHeader(HALF, k / 2, HalfAddress(k), 0);
      IsChip(h) && FlashPosition(h) == k * HALF && FlashPosition(h) + HALF <= FLASH
  {
    HeaderReads(HALF, k / 2, HalfAddress(k), 0);
  }

  /** What a buffer has that holds the half banks below k and is empty from there on. */
  ghost predicate Holds(buffer: seq<Byte>, file: seq<Byte>, k: nat) {
    && |buffer| == |file| == FLASH && k <= HALVES
    && (forall i :: 0 <= i < k * HALF ==> buffer[i] == file[i])
    && (forall i :: k * HALF <= i < FLASH ==> buffer[i] == 0xff)
  }

  lemma HoldsStep(buffer: seq<Byte>, file: seq<Byte>, k: nat)
    requires Holds(buffer, file, k) && k < HALVES
    ensures Holds(Put(buffer, k * HALF, Half(file, k)), file, k + 1)
    ensures Empty(Half(file, k)) ==> Holds(buffer, file, k + 1)
  {
    forall i | k * HALF <= i < (k + 1) * HALF ensures file[i] == Half(file, k)[i - k * HALF] {}
  }

  /** Loading a saved image gives it back, unless nothing at all was written. */
  lemma {:induction false} FlashRoundTrip(file: seq<Byte>, k: nat, buffer: seq<Byte>, any: bool, before: seq<Byte>)
    requires |file| == FLASH && k <= HALVES && Holds(buffer, file, k)
    requires any <==> !Empty(file[..k * HALF])
    ensures LoadFlash(before + FlashBytes(file, k), |before|, buffer, any) ==
      if Empty(file) then Failed else Loaded(file)
    decreases HALVES - k
  {
    hide ChipHeader, IsChip, FlashPosition, Holds, Empty, Put, LoadFlash, FlashBytes;
    if k == HALVES {
      AllHeld(buffer, file);
      NoHalvesLeft(file);
      FlashEnds(before, |before|, buffer, any);
      assert before + [] == before && file[..k * HALF] == file;
    } else {
      var half, rest := Half(file, k), FlashBytes(file, k + 1);
      HoldsStep(buffer, file, k);
      EmptyStep(file, k);
      FlashStep(file, k, before);
      if Empty(half) {
        FlashRoundTrip(file, k + 1, buffer, any, before);
      } else {
        var h := ChipHeader(HALF, k / 2, HalfAddress(k), 0);
        FlashHeaderReads(k);
        HalfLoads(h, half, before, rest, buffer, any);
        FlashRoundTrip(file, k + 1, Put(buffer, k * HALF, half), true, before + (h + half));
      }
    }
  }

  lemma FlashEnds(b: seq<Byte>, p: nat, buffer: seq<Byte>, any: bool)
    requires |buffer| == FLASH && p + 16 > |b|
    ensures LoadFlash(b, p, buffer, any) == if any then Loaded(buffer) else Failed
  {}

  lemma HalfLoads(h: seq<Byte>, half: seq<Byte>, before: seq<Byte>, rest: seq<Byte>, buffer: seq<Byte>, any: bool)
    requires |h| == 16 && |half| == HALF && |buffer| == FLASH && IsChip(h) && FlashPosition(h) + HALF <= FLASH
    ensures LoadFlash(before + (h + half) + rest, |before|, buffer, any) ==
      LoadFlash(before + (h + half) + rest, |before| + 16 + HALF, Put(buffer, FlashPosition(h), half), true)
  {
    hide IsChip, FlashPosition, Put, LoadFlash;
    var b, p := before + (h + half) + rest, |before|;
    assert b[p..p + 16] == h;
    assert b[p + 16..p + 16 + HALF] == half;
    LoadFlashStep(b, p, buffer, any);
  }

  lemma LoadFlashStep(b: seq<Byte>, p: nat, buffer: seq<Byte>, any: bool)
    requires |buffer| == FLASH && p + 16 + HALF <= |b| && IsChip(b[p..p + 16])
    requires FlashPosition(b[p..p + 16]) + HALF <= FLASH
    ensures LoadFlash(b, p, buffer, any) ==
      LoadFlash(b, p + 16 + HALF, Put(buffer, FlashPosition(b[p..p + 16]), b[p + 16..p + 16 + HALF]), true)
  {
    hide IsChip, FlashPosition, Put;
  }

  lemma AllHeld(buffer: seq<Byte>, file: seq<Byte>)
    requires Holds(buffer, file, HALVES)
    ensures buffer == file
  {}

  lemma EmptyStep(file: seq<Byte>, k: nat)
    requires |file| == FLASH && k < HALVES
    ensures Empty(file[..(k + 1) * HALF]) <==> Empty(file[..k * HALF]) && Empty(Half(file, k))
  {
    var a, c, half := file[..k * HALF], file[..(k + 1) * HALF], Half(file, k);
    assert c == a + half;
    assert forall i :: 0 <= i < |a| ==> c[i] == a[i];
    assert forall i :: 0 <= i < |half| ==> half[i] == c[|a| + i];
  }

  /** An image that is not empty comes back; an empty one fails to load. */
  lemma EasyFlashRoundTrip(file: seq<Byte>)
    requires |file| == FLASH
    ensures LoadFlash(FlashBytes(file, 0), 0, seq(FLASH, _ => 0xff), false) ==
      if Empty(file) then Failed else Loaded(file)
  {
    hide FlashBytes, LoadFlash;
    assert [] + FlashBytes(file, 0) == FlashBytes(file, 0);
    FlashRoundTrip(file, 0, seq(FLASH, _ => 0xff), false, []);
  }

  // ---------------------------------------------------------------- the program

  datatype Outcome = Success | Failure | OutOfBuffer

  lemma NoHalvesLeft(file: seq<Byte>)
    requires |file| == FLASH
    ensures FlashBytes(file, HALVES) == []
  {}

  class Converter {
    const filebuffer: array<Byte>
    var loadfileOffset: nat
    var loadfileSize: nat
    var outfile: seq<Byte>

    constructor ()
      ensures filebuffer.Length == BUFFER && loadfileOffset == 0 && loadfileSize == 0 && outfile == []
        && fresh(filebuffer)
    {
      filebuffer := new Byte[BUFFER](_ => 0);
      loadfileOffset, loadfileSize, outfile := 0, 0, [];
    }

    method WriteChipPackage(length: nat, bank: nat, address: nat, kind: Byte)
      requires loadfileOffset + length <= filebuffer.Length
      modifies this`loadfileOffset, this`outfile
      ensures loadfileOffset == old(loadfileOffset) + length
      ensures outfile == old(outfile) + (ChipHeader(length, bank, address,
        kind) + filebuffer[old(loadfileOffset)..loadfileOffset])
    {
      outfile := outfile + (ChipHeader(length, bank, address,
        kind) + filebuffer[loadfileOffset..loadfileOffset + length]);
      loadfileOffset := loadfileOffset + length;
    }

    /** The number of banks, or as many as the loaded file has. */
    function RealBanks(length: nat, banks: nat): nat
      requires length > 0
      reads this
    {
      if banks == 0 then loadfileSize / length else banks
    }

    method SaveRegularCrt(length: nat, banks: nat, address: nat, kind: Byte)
      requires length > 0 && loadfileOffset == 0 && RealBanks(length, banks) * length <= filebuffer.Length
      modifies this`loadfileOffset, this`outfile
      ensures outfile == old(outfile) + RegularBytes(filebuffer[..], length, 0, RealBanks(length, banks), address, kind)
    {
      hide ChipHeader;
      var n := RealBanks(length, banks);
      ghost var file := filebuffer[..];
      ghost var left := file;
      var i := 0;
      while i < n
        invariant 0 <= i <= n && loadfileOffset <= filebuffer.Length && left == filebuffer[loadfileOffset..]
        invariant (n - i) * length <= |left|
        invariant outfile + RegularBytes(left, length, i, n - i, address, kind) ==
          old(outfile) + RegularBytes(file, length, 0, n, address, kind)
      {
        OneBank(length, n - i);
        ghost var rest := RegularBytes(left[length..], length, i + 1, n - i - 1, address, kind);
        assert filebuffer[loadfileOffset..loadfileOffset + length] == left[..length];
        ghost var w := BankBytes(left[..length], i, address, kind);
        assert outfile + (w + rest) == outfile + w + rest;
        WriteChipPackage(length, i, address, kind);
        left := left[length..];
        i := i + 1;
      }
      assert outfile + [] == outfile;
    }

    method CheckEmptyEasyflash() returns (empty: bool)
      requires loadfileOffset + HALF <= filebuffer.Length
      ensures empty == Empty(filebuffer[loadfileOffset..loadfileOffset + HALF])
    {
      ghost var half := filebuffer[loadfileOffset..loadfileOffset + HALF];
      var i := 0;
      while i < HALF
        invariant 0 <= i <= HALF && forall k :: 0 <= k < i ==> half[k] == 0xff
      {
        if filebuffer[loadfileOffset + i] != 0xff {
          assert half[i] != 0xff;
          return false;
        }
        i := i + 1;
      }
      return true;
    }

    method SaveEasyflashCrt()
      requires loadfileOffset == 0 && filebuffer.Length == BUFFER
      modifies this`loadfileOffset, this`outfile
      ensures outfile == old(outfile) + FlashBytes(filebuffer[..FLASH], 0)
    {
      hide FlashBytes;
      ghost var file := filebuffer[..FLASH];
      NoHalvesLeft(file);
      for i := 0 to 64
        invariant loadfileOffset == 2 * i * HALF
        invariant outfile + FlashBytes(file, 2 * i) == old(outfile) + FlashBytes(file, 0)
      {
        for j := 0 to 2
          invariant loadfileOffset == (2 * i + j) * HALF
          invariant outfile + FlashBytes(file, 2 * i + j) == old(outfile) + FlashBytes(file, 0)
        {
          SaveHalf(i, j, file);
        }
      }
      assert outfile + [] == outfile;
    }

    /** One step of the saver: an empty half bank is passed over. */
    method SaveHalf(i: nat, j: nat, ghost file: seq<Byte>)
      requires i < 64 && j < 2 && loadfileOffset == (2 * i + j) * HALF && filebuffer.Length == BUFFER
        && file == filebuffer[..FLASH]
      modifies this`loadfileOffset, this`outfile
      ensures loadfileOffset == (2 * i + j + 1) * HALF
      ensures outfile + FlashBytes(file, 2 * i + j + 1) == old(outfile) + FlashBytes(file, 2 * i + j)
    {
      hide ChipHeader, Empty, FlashBytes;
      ghost var k := 2 * i + j;
      assert k / 2 == i && HalfAddress(k) == (if j == 0 then 0x8000 else 0xa000);
      assert (k + 1) * HALF <= FLASH;
      assert filebuffer[..FLASH][loadfileOffset..loadfileOffset + HALF] ==
        filebuffer[loadfileOffset..loadfileOffset + HALF] == Half(file, k);
      FlashStep(file, k, outfile);
      var empty := CheckEmptyEasyflash();
      if empty {
        loadfileOffset := loadfileOffset + HALF;
      } else {
        WriteChipPackage(HALF, i, if j == 0 then 0x8000 else 0xa000, 0);
      }
    }

    /** Appends the contents of all packages; nothing loaded at all is an error. */
    method LoadAllBanks(infile: seq<Byte>) returns (r: Outcome)
      requires filebuffer.Length == BUFFER && loadfileSize == 0
      modifies this`loadfileSize, filebuffer
      ensures match LoadBanks(infile, 0, [])
        case Failed => r == Failure
        case Outside => r == OutOfBuffer
        case Loaded(data) => r == Success && loadfileSize == |data| <= BUFFER && filebuffer[..loadfileSize] == data
    {
      hide ChipLength, IsChip;
      var p := 0;
      while true
        invariant 0 <= p <= |infile| && loadfileSize <= BUFFER
        invariant LoadBanks(infile, 0, []) == LoadBanks(infile, p, filebuffer[..loadfileSize])
        decreases |infile| - p
      {
        if p + 16 > |infile| {
          return if loadfileSize == 0 then Failure else Success;
        }
        var chip := infile[p..p + 16];
        if !IsChip(chip) {
          return Failure;
        }
        var length := ChipLength(chip);
        var n := Left(infile, p + 16, length);
        if n > 0 && loadfileSize + n > BUFFER {
          return OutOfBuffer;
        }
        ghost var done := filebuffer[..loadfileSize];
        forall i | 0 <= i < n {
          filebuffer[loadfileSize + i] := infile[p + 16 + i];
        }
        if n < length {
          return Failure;
        }
        loadfileSize := loadfileSize + length;
        p := p + 16 + length;
        assert filebuffer[..loadfileSize] == done + infile[p - length..p];
      }
    }

    /** Puts every half bank in its place, interleaved, over an empty image. */
    method LoadEasyflashCrt(infile: seq<Byte>) returns (r: Outcome)
      requires filebuffer.Length == BUFFER && loadfileSize == 0
      modifies this`loadfileSize, filebuffer
      ensures match LoadFlash(infile, 0, seq(FLASH, _ => 0xff), false)
        case Failed => r == Failure
        case Outside => r == OutOfBuffer
        case Loaded(data) => r == Success && loadfileSize == FLASH && filebuffer[..FLASH] == data
    {
      hide FlashPosition, IsChip;
      forall i | 0 <= i < FLASH {
        filebuffer[i] := 0xff;
      }
      assert filebuffer[..FLASH] == seq(FLASH, _ => 0xff);
      var p := 0;
      while true
        invariant 0 <= p <= |infile|
        invariant loadfileSize == 0 || loadfileSize == FLASH
        invariant LoadFlash(infile, 0, seq(FLASH, _ => 0xff), false) ==
          LoadFlash(infile, p, filebuffer[..FLASH], loadfileSize != 0)
        decreases |infile| - p
      {
        if p + 16 > |infile| {
          return if loadfileSize == 0 then Failure else Success;
        }
        var chip := infile[p..p + 16];
        loadfileSize := FLASH;
        if !IsChip(chip) {
          return Failure;
        }
        var at, n := FlashPosition(chip), Left(infile, p + 16, HALF);
        if n > 0 && at + n > BUFFER {
          return OutOfBuffer;
        }
        InsideIsPlace(infile, p);
        ghost var before := filebuffer[..FLASH];
        forall i | 0 <= i < n {
          filebuffer[at + i] := infile[p + 16 + i];
        }
        if n < HALF {
          return Failure;
        }
        assert filebuffer[..FLASH] == Put(before, at, infile[p + 16..p + 16 + HALF]);
        p := p + 16 + HALF;
      }
    }
  }
}
