/**
 * Cartridges of up to 16 KB without banking: what the converter writes for them and what the
 * emulator takes from the file.
 */
module GenericCart {
  import opened Cartconv

  datatype CrtType = Generic8KB | Generic16KB | Ultimax

  datatype Attached = Refused | Attached(kind: CrtType, rom: seq<Byte>)

  const ROM: nat := 0x4000

  /** A chip at 0x8000 of at most 16 KB. */
  predicate IsLow(h: seq<Byte>)
    requires |h| == 16
  {
    h[12] == 0x80 && 0 < h[14] <= 0x40
  }

  /** A chip that ends at the top of memory. */
  predicate IsTop(h: seq<Byte>)
    requires |h| == 16
  {
    h[12] >= 0xe0 && h[14] != 0 && h[14] as int + h[12] as int == 0x100
  }

  /** The chip at the top, after what has been loaded so far. */
  function AttachTop(b: seq<Byte>, p: nat, rom: seq<Byte>): Attached
    requires |rom| == ROM && p + 16 <= |b|
  {
    var h := b[p..p + 16];
    if !IsTop(h) || p + 16 + h[14] as int * 0x100 > |b| then Refused
    else Attached(Ultimax, Put(rom, h[12] as int * 0x100 % 0x4000, b[p + 16..p + 16 + h[14] as int * 0x100]))
  }

  function CrtAttach(b: seq<Byte>, rom: seq<Byte>): Attached
    requires |rom| == ROM
  {
    if 16 > |b| then Refused
    else if !IsLow(b[..16]) then AttachTop(b, 0, rom)
    else
      var size := b[14] as int * 0x100;
      if 16 + size > |b| then Refused
      else
        var low := Put(rom, 0, b[16..16 + size]);
        if 16 + size + 16 <= |b| then AttachTop(b, 16 + size, low)
        else Attached(if b[14] <= 0x20 then Generic8KB else Generic16KB, low)
  }

  /** The packages the converter writes for a binary: nothing for a size it has no form for. */
  function SavedBytes(file: seq<Byte>, ultimax: bool): seq<Byte> {
    if ultimax then
      if |file| == 0x1000 then RegularBytes(file, 0x1000, 0, 1, 0xf000, 0)
      else if |file| == 0x2000 then RegularBytes(file, 0x2000, 0, 1, 0xe000, 0)
      else if |file| == 0x4000 then TwoBlocks(file, 0x8000, 0xe000)
      else []
    else if |file| == 0x1000 then RegularBytes(file, 0x1000, 0, |file| / 0x1000, 0x8000, 0)
    else if |file| == 0x2000 then RegularBytes(file, 0x2000, 0, |file| / 0x2000, 0x8000, 0)
    else if |file| == 0x3000 then RegularBytes(file, 0x3000, 0, 1, 0x8000, 0)
    else if |file| == 0x4000 then RegularBytes(file, 0x4000, 0, 1, 0x8000, 0)
    else []
  }

  /** Two packages of 8 KB each, both with bank 0, the second elsewhere. */
  function TwoBlocks(file: seq<Byte>, first: nat, second: nat): seq<Byte>
    requires |file| >= 0x4000
  {
    BankBytes(file[..0x2000], 0, 0x8000, 0)
      + BankBytes(file[0x2000..0x4000], 0, if second == 0xe000 then 0xe000 else 0xa000, 0)
  }

  lemma FirstChip(file: seq<Byte>, length: nat, address: nat)
    requires length <= |file|
    ensures RegularBytes(file, length, 0, 1, address, 0) == ChipHeader(length, 0, address, 0) + file[..length]
  {
    hide ChipHeader;
    var bank := file[..length];
    assert BankBytes(bank, 0, address, 0) + [] == BankBytes(bank, 0, address, 0);
  }

  lemma OneChip(file: seq<Byte>, address: nat)
    ensures RegularBytes(file, |file|, 0, 1, address, 0) == ChipHeader(|file|, 0, address, 0) + file
  {
    FirstChip(file, |file|, address);
    assert file[..|file|] == file;
  }

  /** The pages a header names. */
  lemma HeaderPages(length: nat, bank: nat, address: nat, kind: Byte)
    requires length < 0x10000 && address < 0x10000
    ensures var h := ChipHeader(length, bank, address, kind);
      h[12] as int == address / 0x100 && h[14] as int == length / 0x100
  {}

  /** Where a chip ends up in the 16 KB: an address of 0xe000 up is that of the second half. */
  function Place(file: seq<Byte>, ultimax: bool): nat {
    if !ultimax || |file| == 0x4000 then 0 else if |file| == 0x1000 then 0x3000 else 0x2000
  }

  predicate Convertible(file: seq<Byte>, ultimax: bool) {
    |file| == 0x1000 || |file| == 0x2000 || (|file| == 0x3000 && !ultimax) || |file| == 0x4000
  }

  /**
   * A chip at 0x8000 is taken for an 8 or 16 KB cartridge from one page to 64.  Sixteen bytes
   * more or above have to be a chip at the top of memory.
   */
  lemma LowAttaches(file: seq<Byte>, pages: nat, rest: seq<Byte>, rom: seq<Byte>)
    requires |file| == 0x100 * pages && pages < 0x100 && |rom| == ROM
    ensures var b := ChipHeader(|file|, 0, 0x8000, 0) + file + rest;
      CrtAttach(b, rom) ==
        if pages < 1 || pages > 64 then Refused
        else if |rest| >= 16 then AttachTop(b, 16 + |file|, Put(rom, 0, file))
        else Attached(if pages <= 32 then Generic8KB else Generic16KB, Put(rom, 0, file))
  {
    var h := ChipHeader(|file|, 0, 0x8000, 0);
    HeaderPages(|file|, 0, 0x8000, 0);
    hide ChipHeader, CrtAttach, AttachTop, Put;
    if 1 <= pages <= 64 {
      LowTaken(h, file, pages, rest, rom);
    } else {
      LowRefused(h, file + rest, rom);
      assert h + file + rest == h + (file + rest);
    }
  }

  lemma LowTaken(h: seq<Byte>, file: seq<Byte>, pages: nat, rest: seq<Byte>, rom: seq<Byte>)
    requires |h| == 16 && |file| == 0x100 * pages && 1 <= pages <= 64 && |rom| == ROM
    requires h[12] == 0x80 && h[14] as int == pages
    ensures CrtAttach(h + file + rest, rom) ==
      if |rest| >= 16 then AttachTop(h + file + rest, 16 + |file|, Put(rom, 0, file))
      else Attached(if pages <= 32 then Generic8KB else Generic16KB, Put(rom, 0, file))
  {
    LowSlices(h, file, rest);
    hide AttachTop, Put;
  }

  lemma LowRefused(h: seq<Byte>, rest: seq<Byte>, rom: seq<Byte>)
    requires |h| == 16 && |rom| == ROM && h[12] == 0x80 && (h[14] == 0 || h[14] > 0x40)
    ensures CrtAttach(h + rest, rom) == Refused
  {
    assert (h + rest)[..16] == h && (h + rest)[0..16] == h;
    hide Put;
  }

  lemma LowSlices(h: seq<Byte>, file: seq<Byte>, rest: seq<Byte>)
    requires |h| == 16
    ensures var b := h + file + rest; b[..16] == b[0..16] == h && b[14] == h[14] && b[16..16 + |file|] == file
  {}

  /** A chip is taken for the top of memory exactly when it starts at 0xe000 or above and ends there. */
  lemma TopAttaches(file: seq<Byte>, pages: nat, before: seq<Byte>, page: nat, rom: seq<Byte>)
    requires |file| == 0x100 * pages && 0 < pages < 0x100 && page < 0x100 && |rom| == ROM
    ensures AttachTop(before + (ChipHeader(|file|, 0, 0x100 * page, 0) + file), |before|, rom) ==
      if page >= 0xe0 && pages + page == 0x100 then Attached(Ultimax, Put(rom, 0x4000 - |file|, file)) else Refused
  {
    var h := ChipHeader(|file|, 0, 0x100 * page, 0);
    HeaderPages(|file|, 0, 0x100 * page, 0);
    TopSlices(before, h, file);
    hide ChipHeader, Put;
  }

  lemma TopSlices(before: seq<Byte>, h: seq<Byte>, file: seq<Byte>)
    requires |h| == 16
    ensures var b, p := before + (h + file), |before|;
      b[p..p + 16] == h && b[p + 16..p + 16 + |file|] == file && b[p + 16..] == file
  {}

  lemma NotLow(file: seq<Byte>, address: nat, rom: seq<Byte>)
    requires |file| < 0x10000 && 0xe000 <= address < 0x10000 && |rom| == ROM
    ensures var b := ChipHeader(|file|, 0, address, 0) + file; CrtAttach(b, rom) == AttachTop([] + b, 0, rom)
  {
    HeaderPages(|file|, 0, address, 0);
    hide ChipHeader, AttachTop;
    var b := ChipHeader(|file|, 0, address, 0) + file;
    assert [] + b == b && b[..16] == ChipHeader(|file|, 0, address, 0);
  }

  lemma TwoAttach(file: seq<Byte>, rom: seq<Byte>)
    requires |file| == 0x4000 && |rom| == ROM
    ensures CrtAttach(TwoBlocks(file, 0x8000, 0xe000), rom) == Attached(Ultimax, file)
  {
    var h, top := ChipHeader(0x2000, 0, 0x8000, 0), ChipHeader(0x2000, 0, 0xe000, 0) + file[0x2000..];
    var before := h + file[..0x2000];
    HeaderPages(0x2000, 0, 0x8000, 0);
    TopAttaches(file[0x2000..], 0x20, before, 0xe0, Put(rom, 0, file[..0x2000]));
    hide ChipHeader, AttachTop;
    var b := before + top;
    assert b[..16] == h && b[16..16 + 0x2000] == file[..0x2000] && file[0x2000..0x4000] == file[0x2000..];
    assert Put(Put(rom, 0, file[..0x2000]), 0x2000, file[0x2000..]) == file;
  }

  /** Every binary the converter has a form for comes out of the emulator's loader as the type it was meant for. */
  lemma GenericRoundTrip(file: seq<Byte>, ultimax: bool, rom: seq<Byte>)
    requires |rom| == ROM && Convertible(file, ultimax)
    ensures var kind := if ultimax then Ultimax else if |file| <= 0x2000 then Generic8KB else Generic16KB;
      CrtAttach(SavedBytes(file, ultimax), rom) == Attached(kind, Put(rom, Place(file, ultimax), file))
  {
    hide ChipHeader, Put, CrtAttach, AttachTop, RegularBytes, TwoBlocks;
    OneChip(file, 0x8000);
    OneChip(file, 0xe000);
    OneChip(file, 0xf000);
    if !ultimax {
      LowAttaches(file, |file| / 0x100, [], rom);
      assert ChipHeader(|file|, 0, 0x8000, 0) + file + [] == ChipHeader(|file|, 0, 0x8000, 0) + file;
    } else if |file| == 0x4000 {
      TwoAttach(file, rom);
      WholeRom(file, rom);
    } else {
      var address := if |file| == 0x1000 then 0xf000 else 0xe000;
      NotLow(file, address, rom);
      TopAttaches(file, |file| / 0x100, [], address / 0x100, rom);
    }
  }

  lemma WholeRom(file: seq<Byte>, rom: seq<Byte>)
    requires |file| == |rom|
    ensures Put(rom, 0, file) == file
  {}

  /** The converter writes the packages of the binary it has loaded. */
  method SaveGenericCrt(c: Converter, ultimax: bool)
    requires c.loadfileOffset == 0 && c.loadfileSize <= c.filebuffer.Length == BUFFER
    modifies c`loadfileOffset, c`outfile
    ensures c.outfile == old(c.outfile) + SavedBytes(c.filebuffer[..c.loadfileSize], ultimax)
  {
    hide ChipHeader, RegularBytes;
    ghost var all, file := c.filebuffer[..], c.filebuffer[..c.loadfileSize];
    if ultimax {
      if c.loadfileSize == 0x1000 {
        SameChip(all, file, 0xf000);
        c.SaveRegularCrt(0x1000, 1, 0xf000, 0);
      } else if c.loadfileSize == 0x2000 {
        SameChip(all, file, 0xe000);
        c.SaveRegularCrt(0x2000, 1, 0xe000, 0);
      } else if c.loadfileSize == 0x4000 {
        SaveTwoBlocks(c, 0x8000, 0xe000);
      } else {
        assert c.outfile + [] == c.outfile;
      }
    } else {
      SaveLow(c);
    }
  }

  method SaveLow(c: Converter)
    requires c.loadfileOffset == 0 && c.loadfileSize <= c.filebuffer.Length == BUFFER
    modifies c`loadfileOffset, c`outfile
    ensures c.outfile == old(c.outfile) + SavedBytes(c.filebuffer[..c.loadfileSize], false)
  {
    hide ChipHeader, RegularBytes;
    ghost var all, file := c.filebuffer[..], c.filebuffer[..c.loadfileSize];
    SameChip(all, file, 0x8000);
    match c.loadfileSize
    case 0x1000 => c.SaveRegularCrt(0x1000, 0, 0x8000, 0);
    case 0x2000 => c.SaveRegularCrt(0x2000, 0, 0x8000, 0);
    case 0x3000 => c.SaveRegularCrt(0x3000, 1, 0x8000, 0);
    case 0x4000 => c.SaveRegularCrt(0x4000, 1, 0x8000, 0);
    case _ => assert c.outfile + [] == c.outfile;
  }

  lemma SameChip(all: seq<Byte>, file: seq<Byte>, address: nat)
    requires |file| <= |all| && all[..|file|] == file
    ensures RegularBytes(all, |file|, 0, 1, address, 0) == RegularBytes(file, |file|, 0, 1, address, 0)
  {
    FirstChip(all, |file|, address);
    OneChip(file, address);
  }

  method SaveTwoBlocks(c: Converter, first: nat, second: nat)
    requires c.loadfileOffset == 0 && 0x4000 <= c.loadfileSize <= c.filebuffer.Length
    modifies c`loadfileOffset, c`outfile
    ensures c.outfile == old(c.outfile) + TwoBlocks(c.filebuffer[..c.loadfileSize], first, second)
  {
    hide ChipHeader;
    ghost var file := c.filebuffer[..c.loadfileSize];
    c.WriteChipPackage(0x2000, 0, 0x8000, 0);
    c.WriteChipPackage(0x2000, 0, if second == 0xe000 then 0xe000 else 0xa000, 0);
    assert c.filebuffer[0..0x2000] == file[..0x2000] && c.filebuffer[0x2000..0x4000] == file[0x2000..0x4000];
  }

  /** The emulator's loader, from behind the file header. */
  method GenericCrtAttach(b: seq<Byte>, rom: array<Byte>) returns (ok: bool, kind: CrtType)
    requires rom.Length == ROM
    modifies rom
    ensures CrtAttach(b, old(rom[..])) == if ok then Attached(kind, rom[..]) else Refused
  {
    hide AttachTop, Put, IsTop;
    ok, kind := false, Ultimax;
    if 16 > |b| {
      return;
    }
    var p, h := 0, b[..16];
    if IsLow(h) {
      var size := h[14] as int * 0x100;
      if 16 + size > |b| {
        return;
      }
      Read(b, 16, size, rom, 0);
      p := 16 + size;
      if p + 16 > |b| {
        return true, if h[14] <= 0x20 then Generic8KB else Generic16KB;
      }
    }
    ok := ReadTop(b, p, rom);
  }

  method ReadTop(b: seq<Byte>, p: nat, rom: array<Byte>) returns (ok: bool)
    requires rom.Length == ROM && p + 16 <= |b|
    modifies rom
    ensures AttachTop(b, p, old(rom[..])) == if ok then Attached(Ultimax, rom[..]) else Refused
  {
    hide Put;
    var h := b[p..p + 16];
    var size := h[14] as int * 0x100;
    if !IsTop(h) || p + 16 + size > |b| {
      return false;
    }
    Read(b, p + 16, size, rom, h[12] as int * 0x100 % 0x4000);
    return true;
  }

  method Read(b: seq<Byte>, p: nat, size: nat, rom: array<Byte>, place: nat)
    requires p + size <= |b| && place + size <= rom.Length
    modifies rom
    ensures rom[..] == Put(old(rom[..]), place, b[p..p + size])
  {
    forall i | 0 <= i < size {
      rom[place + i] := b[p + i];
    }
    assert rom[..] == Put(old(rom[..]), place, b[p..p + size]);
  }
}
