/**
 * The EasyFlash cartridge of the emulator: attaching a cartridge file to its two flash chips and
 * saving them.  Together with the converter: what the one writes the other reads.
 */
module EasyFlash {
  import opened Cartconv

  /** The 64 banks of the chip at 0x8000, then the 64 of the one at 0xa000 or 0xe000. */
  datatype Attached = Refused | Attached(rawcart: seq<Byte>)

  function Bank(h: seq<Byte>): nat
    requires |h| == 16
  {
    Word(h[10..12])
  }

  function Offset(h: seq<Byte>): nat
    requires |h| == 16
  {
    Word(h[12..14])
  }

  function Size(h: seq<Byte>): nat
    requires |h| == 16
  {
    Word(h[14..16])
  }

  /** What packages a cartridge file may hold: half a bank, or a whole one at 0x8000. */
  predicate Acceptable(h: seq<Byte>)
    requires |h| == 16
  {
    && Bank(h) < 64
    && if Size(h) == HALF then Offset(h) == 0x8000 || Offset(h) == 0xa000 || Offset(h) == 0xe000
       else Size(h) == 2 * HALF && Offset(h) == 0x8000
  }

  /** Which of the packages the converter can write those are. */
  lemma AcceptableExactly(length: nat, bank: nat, address: nat, kind: Byte)
    requires length + 0x10 < 0x10000 && address < 0x10000
    ensures Acceptable(ChipHeader(length, bank, address, kind)) <==>
      bank % 0x100 < 64 &&
      ((length == 0x2000 && address in {0x8000, 0xa000, 0xe000}) || (length == 0x4000 && address == 0x8000))
  {
    HeaderLayout(length, bank, address, kind);
    hide ChipHeader, Word;
  }

  function ChipPlace(h: seq<Byte>): (n: nat)
    requires |h| == 16 && Acceptable(h)
    ensures n + HALF <= FLASH
  {
    Bank(h) * HALF + if Offset(h) == 0x8000 then 0 else 0x80000
  }

  function CrtAttach(b: seq<Byte>, p: nat, rawcart: seq<Byte>): Attached
    requires |rawcart| == FLASH
    decreases |b| - p
  {
    if p + 16 > |b| then Attached(rawcart)
    else
      var h := b[p..p + 16];
      if !Acceptable(h) || p + 16 + Size(h) > |b| then Refused
      else
        var half := Put(rawcart, ChipPlace(h), b[p + 16..p + 16 + HALF]);
        if Size(h) == HALF then CrtAttach(b, p + 16 + HALF, half)
        else CrtAttach(b, p + 16 + 2 * HALF, Put(half, 0x80000 + Bank(h) * HALF, b[p + 16 + HALF..p + 16 + 2 * HALF]))
  }

  /** The sixteen bytes before half bank k of the chips, numbered through. */
  function SaveHeader(k: nat): (h: seq<Byte>)
    requires k < HALVES
    ensures |h| == 16
  {
    ['C' as int, 'H' as int, 'I' as int, 'P' as int, 0, 0, 0x20, 0x10,
     0, 2, 0, if k > 63 then k - 64 else k, if k > 63 then 0xa0 else 0x80, 0, 0x20, 0]
  }

  /** They are the converter's, but for the type and the order of the banks. */
  lemma SameHeaders(k: nat)
    requires k < HALVES
    ensures SaveHeader(k) ==
      if k < 64 then ChipHeader(0x2000, k, 0x8000, 2) else ChipHeader(0x2000, k - 64, 0xa000, 2)
  {}

  /** The packages of half banks k up to the last; empty ones are left out. */
  function SavedBytes(rawcart: seq<Byte>, k: nat): seq<Byte>
    requires |rawcart| == FLASH && k <= HALVES
    decreases HALVES - k
  {
    if k == HALVES then []
    else
      (if Empty(Half(rawcart, k)) then [] else SaveHeader(k) + Half(rawcart, k)) + SavedBytes(rawcart, k + 1)
  }

  // ---------------------------------------------------------------- rearranging halves

  /** The halves of an image go to other places of a buffer, each to its own. */
  ghost predicate Permutes(q: nat -> nat) {
    && (forall k :: 0 <= k < HALVES ==> q(k) < HALVES)
    && forall j, k :: 0 <= j < k < HALVES ==> q(j) != q(k)
  }

  function Part(s: seq<Byte>, k: nat): (h: seq<Byte>)
    requires |s| == FLASH && k < HALVES
    ensures |h| == HALF
  {
    Half(s, k)
  }

  /** The halves of the image below k are in their places, and those of the others are empty. */
  ghost predicate HoldsBy(buffer: seq<Byte>, image: seq<Byte>, k: nat, q: nat -> nat)
    requires Permutes(q)
  {
    && |buffer| == |image| == FLASH && k <= HALVES
    && (forall j :: 0 <= j < k ==> Part(buffer, q(j)) == Part(image, j))
    && (forall j :: k <= j < HALVES ==> Empty(Part(buffer, q(j))))
  }

  lemma PutPart(buffer: seq<Byte>, x: seq<Byte>, k: nat, j: nat)
    requires |buffer| == FLASH && |x| == HALF && k < HALVES && j < HALVES
    ensures Part(Put(buffer, k * HALF, x), j) == if j == k then x else Part(buffer, j)
  {
    if j < k {
      PutBehind(buffer, k * HALF, x, j * HALF);
    } else if j > k {
      PutBefore(buffer, k * HALF, x, j * HALF);
    } else {
      PutThere(buffer, k * HALF, x);
    }
  }

  lemma PutBehind(buffer: seq<Byte>, at: nat, x: seq<Byte>, i: nat)
    requires at + |x| <= |buffer| && i + HALF <= at
    ensures Put(buffer, at, x)[i..i + HALF] == buffer[i..i + HALF]
  {}

  lemma PutBefore(buffer: seq<Byte>, at: nat, x: seq<Byte>, i: nat)
    requires at + |x| <= i && i + HALF <= |buffer|
    ensures Put(buffer, at, x)[i..i + HALF] == buffer[i..i + HALF]
  {}

  lemma PutThere(buffer: seq<Byte>, at: nat, x: seq<Byte>)
    requires at + |x| <= |buffer|
    ensures Put(buffer, at, x)[at..at + |x|] == x
  {}

  lemma HoldsByStep(buffer: seq<Byte>, image: seq<Byte>, k: nat, q: nat -> nat)
    requires Permutes(q) && k < HALVES && HoldsBy(buffer, image, k, q)
    ensures HoldsBy(Put(buffer, q(k) * HALF, Part(image, k)), image, k + 1, q)
    ensures Empty(Part(image, k)) ==> HoldsBy(buffer, image, k + 1, q)
  {
    hide Put, Part, Empty;
    forall j | 0 <= j < HALVES ensures Part(Put(buffer, q(k) * HALF, Part(image, k)), q(j)) ==
        if q(j) == q(k) then Part(image, k) else Part(buffer, q(j)) {
      PutPart(buffer, Part(image, k), q(k), q(j));
    }
    if Empty(Part(image, k)) {
      BothEmpty(Part(buffer, q(k)), Part(image, k));
    }
  }

  lemma BothEmpty(a: seq<Byte>, b: seq<Byte>)
    requires |a| == |b| && Empty(a) && Empty(b)
    ensures a == b
  {}

  // ---------------------------------------------------------------- one package

  lemma AttachStep(h: seq<Byte>, half: seq<Byte>, before: seq<Byte>, rest: seq<Byte>, rawcart: seq<Byte>)
    requires |h| == 16 && |half| == HALF && |rawcart| == FLASH && Acceptable(h) && Size(h) == HALF
    ensures CrtAttach(before + (h + half) + rest, |before|, rawcart) ==
      CrtAttach(before + (h + half) + rest, |before| + 16 + HALF, Put(rawcart, ChipPlace(h), half))
  {
    hide Acceptable, Size, Bank, ChipPlace, Put, CrtAttach;
    var b, p := before + (h + half) + rest, |before|;
    assert b[p..p + 16] == h;
    assert b[p + 16..p + 16 + HALF] == half;
    AttachOne(b, p, rawcart);
  }

  lemma AttachOne(b: seq<Byte>, p: nat, rawcart: seq<Byte>)
    requires |rawcart| == FLASH && p + 16 + HALF <= |b| && Acceptable(b[p..p + 16]) && Size(b[p..p + 16]) == HALF
    ensures CrtAttach(b, p, rawcart) ==
      CrtAttach(b, p + 16 + HALF, Put(rawcart, ChipPlace(b[p..p + 16]), b[p + 16..p + 16 + HALF]))
  {
    hide Acceptable, Size, Bank, ChipPlace, Put;
  }

  /** Fewer than sixteen bytes more are no package; any sixteen have to be one, with all its contents. */
  lemma AttachTail(b: seq<Byte>, p: nat, rawcart: seq<Byte>)
    requires |rawcart| == FLASH && p <= |b|
    ensures |b| - p < 16 ==> CrtAttach(b, p, rawcart) == Attached(rawcart)
    ensures |b| - p >= 16 && (!Acceptable(b[p..p + 16]) || |b| - p - 16 < Size(b[p..p + 16])) ==>
      CrtAttach(b, p, rawcart) == Refused
  {
    hide Acceptable, Size;
  }

  /** A package of 16 KB goes to both chips, half and half. */
  lemma WholeBank(h: seq<Byte>, bank: seq<Byte>, before: seq<Byte>, rest: seq<Byte>, rawcart: seq<Byte>)
    requires |h| == 16 && |bank| == 0x4000 && |rawcart| == FLASH && Acceptable(h) && Size(h) == 0x4000
    ensures Bank(h) * 0x2000 + 0x2000 <= 0x80000
    ensures var b := before + (h + bank) + rest;
      CrtAttach(b, |before|, rawcart) == CrtAttach(b, |before| + 16 + 0x4000,
        Put(Put(rawcart, Bank(h) * 0x2000, bank[..0x2000]), 0x80000 + Bank(h) * 0x2000, bank[0x2000..]))
  {
    WholePlace(h);
    WholeSlices(h, bank, before, rest);
    hide Put, Acceptable, Size, Bank, ChipPlace, CrtAttach;
    AttachWhole(before + (h + bank) + rest, |before|, rawcart);
  }

  lemma WholeSlices(h: seq<Byte>, bank: seq<Byte>, before: seq<Byte>, rest: seq<Byte>)
    requires |h| == 16 && |bank| == 0x4000
    ensures var b, p := before + (h + bank) + rest, |before|;
      && b[p..p + 16] == h && b[p + 16..p + 16 + HALF] == bank[..0x2000]
      && b[p + 16 + HALF..p + 16 + 2 * HALF] == bank[0x2000..]
  {
    var b, p := before + (h + bank) + rest, |before|;
    assert b[p..][..16 + 0x4000] == h + bank;
  }

  lemma WholePlace(h: seq<Byte>)
    requires |h| == 16 && Acceptable(h) && Size(h) == 0x4000
    ensures ChipPlace(h) == Bank(h) * 0x2000 && Bank(h) * 0x2000 + 0x2000 <= 0x80000
  {}

  lemma AttachWhole(b: seq<Byte>, p: nat, rawcart: seq<Byte>)
    requires |rawcart| == FLASH && p + 16 + 2 * HALF <= |b|
    requires Acceptable(b[p..p + 16]) && Size(b[p..p + 16]) == 2 * HALF
    requires 0x80000 + Bank(b[p..p + 16]) * HALF + HALF <= FLASH
    ensures CrtAttach(b, p, rawcart) == CrtAttach(b, p + 16 + 2 * HALF,
      Put(Put(rawcart, ChipPlace(b[p..p + 16]), b[p + 16..p + 16 + HALF]), 0x80000 + Bank(b[p..p + 16]) * HALF,
        b[p + 16 + HALF..p + 16 + 2 * HALF]))
  {
    hide Acceptable, Size, Bank, ChipPlace, Put;
  }

  // ---------------------------------------------------------------- the converter's file in the emulator

  /** Half banks of a binary lie in turn, those of the chips apart. */
  function ChipHalf(k: nat): nat { k % 2 * 64 + k / 2 }

  lemma ChipHalfPermutes()
    ensures Permutes(ChipHalf)
  {
    forall k | 0 <= k < HALVES ensures ChipHalf(k) < HALVES && BinaryHalf(ChipHalf(k)) == k {
      ThereIsBack(k);
    }
    hide ChipHalf, BinaryHalf;
  }

  lemma ConverterHeader(k: nat)
    requires k < HALVES
    ensures var h := ChipHeader(HALF, k / 2, HalfAddress(k), 0);
      Acceptable(h) && Size(h) == HALF && ChipPlace(h) == ChipHalf(k) * HALF
  {
    HeaderLayout(HALF, k / 2, HalfAddress(k), 0);
    hide ChipHeader, Word;
  }

  lemma {:induction false} AttachFrom(file: seq<Byte>, k: nat, rawcart: seq<Byte>, before: seq<Byte>)
      returns (r: seq<Byte>)
    requires |rawcart| == |file| == FLASH && k <= HALVES
    requires Permutes(ChipHalf) && HoldsBy(rawcart, file, k, ChipHalf)
    ensures |r| == FLASH && HoldsBy(r, file, HALVES, ChipHalf)
    ensures CrtAttach(before + FlashBytes(file, k), |before|, rawcart) == Attached(r)
    decreases HALVES - k
  {
    hide ChipHeader, Acceptable, Size, ChipPlace, Permutes, HoldsBy, Empty, Put, CrtAttach, FlashBytes, ChipHalf;
    if k == HALVES {
      NoHalvesLeft(file);
      assert before + [] == before;
      AttachTail(before, |before|, rawcart);
      r := rawcart;
    } else {
      HoldsByStep(rawcart, file, k, ChipHalf);
      FlashStep(file, k, before);
      if Empty(Half(file, k)) {
        r := AttachFrom(file, k + 1, rawcart, before);
      } else {
        var h := ChipHeader(HALF, k / 2, HalfAddress(k), 0);
        ConverterHeader(k);
        AttachStep(h, Half(file, k), before, FlashBytes(file, k + 1), rawcart);
        r := AttachFrom(file, k + 1, Put(rawcart, ChipHalf(k) * HALF, Half(file, k)), before + (h + Half(file, k)));
      }
    }
  }

  /** The halves of a binary lie in turn in the two chips. */
  ghost predicate Interleaved(file: seq<Byte>, rawcart: seq<Byte>) {
    && |file| == |rawcart| == FLASH
    && forall k :: 0 <= k < 64 ==>
         Part(rawcart, k) == Part(file, 2 * k) && Part(rawcart, 64 + k) == Part(file, 2 * k + 1)
  }

  function Unwritten(): (s: seq<Byte>)
    ensures |s| == FLASH
  {
    seq(FLASH, _ => 0xff)
  }

  lemma UnwrittenHolds(image: seq<Byte>, q: nat -> nat)
    requires |image| == FLASH && Permutes(q)
    ensures HoldsBy(Unwritten(), image, 0, q)
  {}

  lemma HeldAt(rawcart: seq<Byte>, file: seq<Byte>, k: nat)
    requires Permutes(ChipHalf) && HoldsBy(rawcart, file, HALVES, ChipHalf) && k < 64
    ensures Part(rawcart, k) == Part(file, 2 * k) && Part(rawcart, 64 + k) == Part(file, 2 * k + 1)
  {
    hide Part;
    assert ChipHalf(2 * k) == k && ChipHalf(2 * k + 1) == 64 + k;
  }

  /** The emulator takes every image the converter writes, an empty one too. */
  lemma ConvertedAttaches(file: seq<Byte>) returns (rawcart: seq<Byte>)
    requires |file| == FLASH
    ensures CrtAttach(FlashBytes(file, 0), 0, Unwritten()) == Attached(rawcart) && Interleaved(file, rawcart)
  {
    ChipHalfPermutes();
    UnwrittenHolds(file, ChipHalf);
    hide CrtAttach, FlashBytes, Part, Empty;
    rawcart := AttachFrom(file, 0, Unwritten(), []);
    assert [] + FlashBytes(file, 0) == FlashBytes(file, 0);
    hide HoldsBy, Permutes, ChipHalf;
    forall k | 0 <= k < 64
      ensures Part(rawcart, k) == Part(file, 2 * k) && Part(rawcart, 64 + k) == Part(file, 2 * k + 1) {
      HeldAt(rawcart, file, k);
    }
  }

  // ---------------------------------------------------------------- the emulator's file in both

  lemma SavedStep(rawcart: seq<Byte>, k: nat, before: seq<Byte>)
    requires |rawcart| == FLASH && k < HALVES
    ensures before + SavedBytes(rawcart, k) ==
      (if Empty(Half(rawcart, k)) then before else before + (SaveHeader(k) + Half(rawcart, k)))
        + SavedBytes(rawcart, k + 1)
  {
    hide SaveHeader, Empty;
    var w, rest := SaveHeader(k) + Half(rawcart, k), SavedBytes(rawcart, k + 1);
    assert [] + rest == rest && before + (w + rest) == before + w + rest;
  }

  lemma NothingSaved(rawcart: seq<Byte>)
    requires |rawcart| == FLASH
    ensures SavedBytes(rawcart, HALVES) == []
  {}

  function Same(k: nat): nat { k }

  lemma SavePlace(k: nat)
    requires k < HALVES
    ensures var h := SaveHeader(k); Acceptable(h) && Size(h) == HALF && ChipPlace(h) == Same(k) * HALF
  {
    hide Word;
    var h := SaveHeader(k);
    assert h[10..12] == [0, h[11]] && h[12..14] == [h[12], 0] && h[14..16] == [0x20, 0];
    WordIs(0, h[11]);
    WordIs(h[12], 0);
    WordIs(0x20, 0);
  }

  lemma WordIs(hi: Byte, lo: Byte)
    ensures Word([hi, lo]) == 0x100 * hi as int + lo as int
  {}

  lemma {:induction false} SavedFrom(image: seq<Byte>, k: nat, rawcart: seq<Byte>, before: seq<Byte>)
    requires |rawcart| == |image| == FLASH && k <= HALVES
    requires Permutes(Same) && HoldsBy(rawcart, image, k, Same)
    ensures CrtAttach(before + SavedBytes(image, k), |before|, rawcart) == Attached(image)
    decreases HALVES - k
  {
    hide SaveHeader, Acceptable, Size, ChipPlace, Permutes, HoldsBy, Empty, Put, CrtAttach, SavedBytes, Same;
    if k == HALVES {
      NothingSaved(image);
      assert before + [] == before;
      AttachTail(before, |before|, rawcart);
      SameParts(rawcart, image);
    } else {
      HoldsByStep(rawcart, image, k, Same);
      SavedStep(image, k, before);
      if Empty(Half(image, k)) {
        SavedFrom(image, k + 1, rawcart, before);
      } else {
        var h := SaveHeader(k);
        SavePlace(k);
        AttachStep(h, Half(image, k), before, SavedBytes(image, k + 1), rawcart);
        SavedFrom(image, k + 1, Put(rawcart, Same(k) * HALF, Half(image, k)), before + (h + Half(image, k)));
      }
    }
  }

  lemma SameParts(a: seq<Byte>, b: seq<Byte>)
    requires Permutes(Same) && HoldsBy(a, b, HALVES, Same)
    ensures a == b
  {
    hide Part;
    forall k | 0 <= k < HALVES ensures Part(a, k) == Part(b, k) {
      assert Part(a, Same(k)) == Part(b, k);
    }
    PartsDecide(a, b);
  }

  lemma PartsDecide(a: seq<Byte>, b: seq<Byte>)
    requires |a| == |b| == FLASH && forall k :: 0 <= k < HALVES ==> Part(a, k) == Part(b, k)
    ensures a == b
  {
    forall i | 0 <= i < FLASH ensures a[i] == b[i] {
      assert a[i] == Part(a, i / HALF)[i % HALF] && b[i] == Part(b, i / HALF)[i % HALF];
    }
  }

  /** What the emulator saves it attaches again as it was. */
  lemma SavedAttaches(rawcart: seq<Byte>)
    requires |rawcart| == FLASH
    ensures CrtAttach(SavedBytes(rawcart, 0), 0, Unwritten()) == Attached(rawcart)
  {
    assert Permutes(Same);
    UnwrittenHolds(rawcart, Same);
    hide CrtAttach, SavedBytes, HoldsBy;
    SavedFrom(rawcart, 0, Unwritten(), []);
    assert [] + SavedBytes(rawcart, 0) == SavedBytes(rawcart, 0);
  }

  /** Where the converter puts half bank k of the chips. */
  function BinaryHalf(k: nat): nat { k % 64 * 2 + k / 64 }

  lemma BinaryHalfPermutes()
    ensures Permutes(BinaryHalf)
  {
    forall k | 0 <= k < HALVES ensures BinaryHalf(k) == if k < 64 then 2 * k else 2 * (k - 64) + 1 {
      BinaryHalfIs(k);
    }
    hide BinaryHalf;
  }

  lemma SaveHeaderConverts(k: nat)
    requires k < HALVES
    ensures var h := SaveHeader(k);
      IsChip(h) && FlashPosition(h) == BinaryHalf(k) * HALF && FlashPosition(h) + HALF <= FLASH
  {}

  lemma {:induction false} ConvertFrom(rawcart: seq<Byte>, k: nat, buffer: seq<Byte>, any: bool, before: seq<Byte>)
      returns (r: seq<Byte>)
    requires |buffer| == |rawcart| == FLASH && k <= HALVES
    requires Permutes(BinaryHalf) && HoldsBy(buffer, rawcart, k, BinaryHalf)
    requires any <==> exists j :: 0 <= j < k && !Empty(Part(rawcart, j))
    ensures |r| == FLASH && HoldsBy(r, rawcart, HALVES, BinaryHalf)
    ensures LoadFlash(before + SavedBytes(rawcart, k), |before|, buffer, any) ==
      if exists j :: 0 <= j < HALVES && !Empty(Part(rawcart, j)) then Loaded(r) else Failed
    decreases HALVES - k
  {
    hide SaveHeader, IsChip, FlashPosition, Permutes, HoldsBy, Empty, Put, LoadFlash, SavedBytes, BinaryHalf;
    if k == HALVES {
      NothingSaved(rawcart);
      assert before + [] == before;
      FlashEnds(before, |before|, buffer, any);
      r := buffer;
    } else {
      HoldsByStep(buffer, rawcart, k, BinaryHalf);
      SavedStep(rawcart, k, before);
      if Empty(Part(rawcart, k)) {
        r := ConvertFrom(rawcart, k + 1, buffer, any, before);
      } else {
        var h := SaveHeader(k);
        SaveHeaderConverts(k);
        HalfLoads(h, Part(rawcart, k), before, SavedBytes(rawcart, k + 1), buffer, any);
        r := ConvertFrom(rawcart, k + 1, Put(buffer, BinaryHalf(k) * HALF, Part(rawcart, k)), true,
          before + (h + Part(rawcart, k)));
      }
    }
  }

  /** What the emulator saves the converter turns into the binary again, unless the chips are empty. */
  lemma SavedConverts(file: seq<Byte>, rawcart: seq<Byte>)
    requires Interleaved(file, rawcart)
    ensures LoadFlash(SavedBytes(rawcart, 0), 0, Unwritten(), false) == if Empty(file) then Failed else Loaded(file)
  {
    BinaryHalfPermutes();
    UnwrittenHolds(rawcart, BinaryHalf);
    hide LoadFlash, SavedBytes, HoldsBy, Permutes, BinaryHalf, Empty;
    var r := ConvertFrom(rawcart, 0, Unwritten(), false, []);
    assert [] + SavedBytes(rawcart, 0) == SavedBytes(rawcart, 0);
    ConvertedBack(file, rawcart, r);
    SomeHalf(file, rawcart);
  }

  lemma BinaryHalfIs(k: nat)
    requires k < HALVES
    ensures BinaryHalf(k) == if k < 64 then 2 * k else 2 * (k - 64) + 1
  {}

  lemma ThereIsBack(k: nat)
    requires k < HALVES
    ensures ChipHalf(k) < HALVES && BinaryHalf(ChipHalf(k)) == k
  {
    ChipHalfIs(k);
    BinaryHalfIs(ChipHalf(k));
    hide ChipHalf, BinaryHalf;
  }

  lemma ChipHalfIs(k: nat)
    requires k < HALVES
    ensures ChipHalf(k) == if k % 2 == 0 then k / 2 else 64 + k / 2
  {}

  lemma InterleavedAt(file: seq<Byte>, rawcart: seq<Byte>, k: nat)
    requires Interleaved(file, rawcart) && k < HALVES
    ensures BinaryHalf(k) < HALVES && Part(rawcart, k) == Part(file, BinaryHalf(k))
  {
    BinaryHalfIs(k);
    hide Part, BinaryHalf, ChipHalf;
    if k >= 64 {
      assert Part(rawcart, 64 + (k - 64)) == Part(file, 2 * (k - 64) + 1);
    }
  }

  lemma ConvertedBack(file: seq<Byte>, rawcart: seq<Byte>, r: seq<Byte>)
    requires Interleaved(file, rawcart) && Permutes(BinaryHalf) && HoldsBy(r, rawcart, HALVES, BinaryHalf)
    ensures r == file
  {
    assert |file| == FLASH;
    hide Part, Interleaved, ChipHalf, BinaryHalf;
    forall k | 0 <= k < HALVES ensures Part(r, k) == Part(file, k) {
      ThereIsBack(k);
      InterleavedAt(file, rawcart, ChipHalf(k));
      assert Part(r, BinaryHalf(ChipHalf(k))) == Part(rawcart, ChipHalf(k));
    }
    PartsDecide(r, file);
  }

  lemma SomeHalf(file: seq<Byte>, rawcart: seq<Byte>)
    requires Interleaved(file, rawcart)
    ensures Empty(file) <==> forall j :: 0 <= j < HALVES ==> Empty(Part(rawcart, j))
  {
    assert |file| == |rawcart| == FLASH;
    hide Empty, Part, Interleaved, ChipHalf, BinaryHalf;
    EmptyParts(file);
    forall k | 0 <= k < HALVES
      ensures ChipHalf(k) < HALVES && Part(rawcart, ChipHalf(k)) == Part(file, k)
      ensures BinaryHalf(k) < HALVES && Part(rawcart, k) == Part(file, BinaryHalf(k)) {
      ThereIsBack(k);
      InterleavedAt(file, rawcart, k);
      InterleavedAt(file, rawcart, ChipHalf(k));
    }
  }

  lemma EmptyParts(s: seq<Byte>)
    requires |s| == FLASH
    ensures Empty(s) <==> forall k :: 0 <= k < HALVES ==> Empty(Part(s, k))
  {
    if forall k :: 0 <= k < HALVES ==> Empty(Part(s, k)) {
      forall i | 0 <= i < FLASH ensures s[i] == 0xff {
        assert s[i] == Part(s, i / HALF)[i % HALF];
      }
    }
  }

  /** Out to the emulator and back: the binary that was converted. */
  lemma ThereAndBack(file: seq<Byte>)
    requires |file| == FLASH
    ensures var a := CrtAttach(FlashBytes(file, 0), 0, Unwritten());
      && a.Attached? && |a.rawcart| == FLASH
      && LoadFlash(SavedBytes(a.rawcart, 0), 0, Unwritten(), false) == if Empty(file) then Failed else Loaded(file)
  {
    hide LoadFlash, SavedBytes, CrtAttach, FlashBytes, Empty;
    var rawcart := ConvertedAttaches(file);
    SavedConverts(file, rawcart);
  }

  // ---------------------------------------------------------------- the cartridge

  /** The two flash chips. */
  class Cartridge {
    const low: array<Byte>
    const high: array<Byte>

    constructor ()
      ensures fresh(low) && fresh(high) && low != high && low.Length == high.Length == 0x80000
    {
      low := new Byte[0x80000](_ => 0xff);
      high := new Byte[0x80000](_ => 0xff);
    }

    /** Reads a cartridge file from behind its header. */
    static method EasyflashCrtAttach(infile: seq<Byte>, rawcart: array<Byte>) returns (ok: bool)
      requires rawcart.Length == FLASH
      modifies rawcart
      ensures CrtAttach(infile, 0, Unwritten()) == if ok then Attached(rawcart[..]) else Refused
    {
      hide Acceptable, ChipPlace, Size, Bank, Put, CrtAttach;
      forall i | 0 <= i < FLASH {
        rawcart[i] := 0xff;
      }
      assert rawcart[..] == Unwritten();
      var p := 0;
      while p + 16 <= |infile|
        invariant 0 <= p <= |infile|
        invariant CrtAttach(infile, 0, Unwritten()) == CrtAttach(infile, p, rawcart[..])
        decreases |infile| - p
      {
        var h := infile[p..p + 16];
        AttachTail(infile, p, rawcart[..]);
        if !Acceptable(h) {
          return false;
        }
        SizeIs(h);
        if p + 16 + Size(h) > |infile| {
          return false;
        }
        if Size(h) == HALF {
          AttachOne(infile, p, rawcart[..]);
        } else {
          AttachWhole(infile, p, rawcart[..]);
        }
        ReadHalf(infile, p + 16, rawcart, ChipPlace(h));
        if Size(h) != HALF {
          ReadHalf(infile, p + 16 + HALF, rawcart, 0x80000 + Bank(h) * HALF);
        }
        p := p + 16 + Size(h);
      }
      AttachTail(infile, p, rawcart[..]);
      return true;
    }

    static method ReadHalf(infile: seq<Byte>, p: nat, rawcart: array<Byte>, place: nat)
      requires p + HALF <= |infile| && place + HALF <= rawcart.Length
      modifies rawcart
      ensures rawcart[..] == Put(old(rawcart[..]), place, infile[p..p + HALF])
    {
      forall i | 0 <= i < HALF {
        rawcart[place + i] := infile[p + i];
      }
      assert rawcart[..] == Put(old(rawcart[..]), place, infile[p..p + HALF]);
    }

    /** The image goes to the two chips. */
    method ConfigSetup(rawcart: seq<Byte>)
      requires |rawcart| == FLASH && low != high && low.Length == high.Length == 0x80000
      modifies low, high
      ensures low[..] + high[..] == rawcart
    {
      forall i | 0 <= i < 0x80000 {
        low[i] := rawcart[i];
      }
      forall i | 0 <= i < 0x80000 {
        high[i] := rawcart[0x80000 + i];
      }
      assert low[..] == rawcart[..0x80000] && high[..] == rawcart[0x80000..];
    }

    /** Writes a package for every half bank of the chips that is not empty. */
    method CrtSave() returns (out: seq<Byte>)
      requires low.Length == high.Length == 0x80000
      ensures out == SavedBytes(low[..] + high[..], 0)
    {
      hide SavedBytes, Empty;
      out := [];
      ghost var rawcart := low[..] + high[..];
      assert [] + SavedBytes(rawcart, 0) == SavedBytes(rawcart, 0);
      for i := 0 to HALVES
        invariant out + SavedBytes(rawcart, i) == SavedBytes(rawcart, 0)
      {
        var data := if i > 63 then high[(i - 64) * HALF..(i - 64) * HALF + HALF] else low[i * HALF..i * HALF + HALF];
        assert data == Half(rawcart, i);
        SavedStep(rawcart, i, out);
        if !Empty(data) {
          var bank: Byte := if i > 63 then i - 64 else i;
          out := out + (['C' as int, 'H' as int, 'I' as int, 'P' as int, 0, 0, 0x20, 0x10,
            0, 2, 0, bank, if i > 63 then 0xa0 else 0x80, 0, 0x20, 0] + data);
        }
      }
      NothingSaved(rawcart);
      assert out + [] == out;
    }
  }

  lemma SizeIs(h: seq<Byte>)
    requires |h| == 16 && Acceptable(h)
    ensures (Size(h) == HALF || Size(h) == 2 * HALF) && 0x80000 + Bank(h) * HALF + HALF <= FLASH
  {}
}
