/**
 * The flip lists of all four drives and the file they are saved in: text read
 * line by line, a unit line for every drive, and every image added at the head.
 */
module FlipFile {
  import opened Fliplist

  const DRIVES: nat := 4
  const FIRST: nat := 8
  const BUFFER: nat := 1024
  const WORD: int := 0x1_0000_0000

  // The unit that stands for all of them, and for none yet.
  const UNSET: nat := 0xffff_ffff

  type Lists = l: seq<seq<string>> | |l| == DRIVES witness [[], [], [], []]

  // ---------------------------------------------------------------- lines

  /** How many characters a read into a buffer with that much room takes, line feed included. */
  function LineLength(text: string, p: nat, room: nat): (n: nat)
    requires p <= |text|
    ensures n <= room && p + n <= |text|
    ensures n == 0 <==> room == 0 || p == |text|
    decreases room
  {
    if room == 0 || p == |text| then 0
    else if text[p] == '\n' then 1
    else 1 + LineLength(text, p + 1, room - 1)
  }

  function LineAt(text: string, p: nat): (line: string)
    requires p <= |text|
    ensures p + |line| <= |text|
  {
    text[p..p + LineLength(text, p, BUFFER - 1)]
  }

  /** That read has run into the end of the file. */
  predicate HitsEnd(text: string, p: nat)
    requires p <= |text|
  {
    var line := LineAt(text, p);
    |line| < BUFFER - 1 && (line == "" || line[|line| - 1] != '\n')
  }

  /** A line as a C string. */
  function Cut(line: string): string {
    if line == "" || line[0] == '\0' then "" else [line[0]] + Cut(line[1..])
  }

  predicate IsSpace(c: char) {
    c == ' ' || '\t' <= c <= '\r'
  }

  /** The line without the white space at its end. */
  function Stripped(line: string): string {
    if line != "" && IsSpace(line[|line| - 1]) then Stripped(line[..|line| - 1]) else line
  }

  predicate IsUnitLine(line: string) {
    |line| >= 5 && line[..5] == "UNIT "
  }

  /** What a line is stripped of: blanks and the five control characters of C, from its end only. */
  lemma {:induction false} StrippedIs(line: string)
    ensures var s := Stripped(line);
      && s <= line && (s != "" ==> s[|s| - 1] as int !in {9, 10, 11, 12, 13, 32})
      && forall i :: |s| <= i < |line| ==> line[i] as int in {9, 10, 11, 12, 13, 32}
    decreases |line|
  {
    if line != "" && IsSpace(line[|line| - 1]) {
      StrippedIs(line[..|line| - 1]);
    }
  }

  /** A line is one for a unit that starts so, whatever follows. */
  lemma UnitLineIs(line: string)
    ensures IsUnitLine(line) <==> "UNIT " <= line
  {}

  // ---------------------------------------------------------------- numbers

  datatype Number = NoNumber | Number(value: int)

  predicate IsDigit(c: char) {
    '0' <= c <= '9'
  }

  function SkipSpaces(s: string): string {
    if s != "" && IsSpace(s[0]) then SkipSpaces(s[1..]) else s
  }

  /** The digits a string begins with. */
  function Digits(s: string): string {
    if s != "" && IsDigit(s[0]) then [s[0]] + Digits(s[1..]) else ""
  }

  function Value(digits: string): int {
    if digits == "" then 0
    else 10 * Value(digits[..|digits| - 1]) + (digits[|digits| - 1] as int - '0' as int)
  }

  /** A decimal number, perhaps after a sign or white space; what follows it is ignored. */
  function ParseLong(s: string): Number {
    if s == "" || !(IsSpace(s[0]) || IsDigit(s[0]) || s[0] == '+' || s[0] == '-') then NoNumber
    else
      var digits := Digits(SkipSpaces(if s[0] == '+' || s[0] == '-' then s[1..] else s));
      if digits == "" then NoNumber else Number(if s[0] == '-' then -Value(digits) else Value(digits))
  }

  function Digit(n: nat): char
    requires n < 10
  {
    '0' + n as char
  }

  function Decimal(n: nat): string {
    if n < 10 then [Digit(n)] else Decimal(n / 10) + [Digit(n % 10)]
  }

  // ---------------------------------------------------------------- loading

  function FileHeader(): string { "# Vice fliplist file" }

  /** Wild where the source goes on with a number it has not read, or with a list that is not there. */
  datatype Loading = Loading(unit: nat, lists: Lists) | Wild

  function AfterName(s: Loading, name: string): Loading
    requires s.Loading?
  {
    var unit := if s.unit == UNSET then FIRST else s.unit;
    if FIRST <= unit < FIRST + DRIVES then
      Loading(unit, s.lists[unit - FIRST := [name] + s.lists[unit - FIRST]])
    else Wild
  }

  /** Unit lines count only when all drives are loaded. */
  function AfterLine(s: Loading, line: string, all: bool): Loading {
    if s.Wild? then Wild
    else if IsUnitLine(line) then
      if !all then s
      else match ParseLong(line[5..])
        case NoNumber => Wild
        case Number(value) => s.(unit := value % WORD)
    else if Stripped(line) == "" then s
    else AfterName(s, Stripped(line))
  }

  datatype Result = Refused | Result(end: Loading, ok: bool)

  /** The lines from p on; without a line to read the source returns an error. */
  function Rest(s: Loading, text: string, p: nat, atEnd: bool, all: bool): Result
    requires p <= |text|
    decreases |text| - p
  {
    if s.Wild? then Result(Wild, false)
    else if atEnd then Result(s, true)
    else
      var line := LineAt(text, p);
      if line == "" then Result(s, false)
      else Rest(AfterLine(s, Cut(line), all), text, p + |line|, HitsEnd(text, p), all)
  }

  function Cleared(lists: Lists, unit: nat): Loading
    requires unit == UNSET || FIRST <= unit < FIRST + DRIVES
  {
    Loading(unit, if unit == UNSET then [[], [], [], []] else lists[unit - FIRST := []])
  }

  function Load(lists: Lists, text: string, unit: nat): Result
    requires unit == UNSET || FIRST <= unit < FIRST + DRIVES
  {
    var line := LineAt(text, 0);
    if !(FileHeader() <= Cut(line)) then Refused
    else Rest(Cleared(lists, unit), text, |line|, HitsEnd(text, 0), unit == UNSET)
  }

  lemma AllCleared(lists: Lists)
    ensures lists[0 := []][1 := []][2 := []][3 := []] == [[], [], [], []]
  {}

  lemma LoadIs(lists: Lists, text: string, unit: nat)
    requires unit == UNSET || FIRST <= unit < FIRST + DRIVES
    ensures Load(lists, text, unit) ==
      if FileHeader() <= Cut(LineAt(text, 0)) then
        Rest(Cleared(lists, unit), text, |LineAt(text, 0)|, HitsEnd(text, 0), unit == UNSET)
      else Refused
  {}

  // ---------------------------------------------------------------- saving

  function Lines(names: seq<string>): string {
    if names == [] then "" else names[0] + "\n" + Lines(names[1..])
  }

  function UnitText(unit: nat, names: seq<string>): string {
    if names == [] then "" else "UNIT " + Decimal(unit) + "\n" + Lines(names)
  }

  function UnitsText(lists: seq<seq<string>>, unit: nat): string {
    if lists == [] then "" else UnitText(unit, lists[0]) + UnitsText(lists[1..], unit + 1)
  }

  /** Without any image no file is written. */
  datatype Saved = NoFile | File(text: string)

  function FileOf(body: string): Saved {
    if body == "" then NoFile else File(FileHeader() + "\n\n" + body)
  }

  function Save(lists: seq<seq<string>>, unit: nat): Saved {
    FileOf(UnitsText(lists, unit))
  }

  /** The text of a file, to the character: two images of one drive and one of another. */
  lemma SavedText(a: string, b: string, c: string)
    ensures Save([[a, b], [], [], [c]], 8) ==
      File("# Vice fliplist file\n\n" + ("UNIT 8\n" + (a + "\n" + (b + "\n"))) + ("UNIT 11\n" + (c + "\n")))
  {
    var lists := [[a, b], [], [], [c]];
    TwoLines(a, b);
    OneLast(c);
    hide Decimal, Lines;
    assert lists[1..] == [[], [], [c]] && UnitsText(lists, 8) == UnitText(8, [a, b]) + UnitsText(lists[1..], 9);
    assert "UNIT " + "8" + "\n" == "UNIT 8\n" by { DecimalsAre(); }
    DecimalsAre();
    var u, v := UnitText(8, [a, b]), UnitsText(lists[1..], 9);
    assert FileHeader() + "\n\n" + (u + v) == FileHeader() + "\n\n" + u + v;
  }

  lemma TwoLines(a: string, b: string)
    ensures Lines([a, b]) == a + "\n" + (b + "\n")
  {
    assert [a, b][1..] == [b] && [b][1..] == [];
    assert Lines([b]) == b + "\n";
  }

  lemma OneLast(c: string)
    ensures UnitsText([[], [], [c]], 9) == "UNIT 11\n" + (c + "\n")
  {
    DecimalsAre();
    hide Decimal;
    assert [[], [], [c]][1..] == [[], [c]] && [[], [c]][1..] == [[c]] && [[c]][1..] == [] && [c][1..] == [];
    assert Lines([c]) == c + "\n";
    assert UnitsText([[c]], 11) == UnitText(11, [c]) == "UNIT " + "11" + "\n" + (c + "\n");
    assert UnitsText([[], [c]], 10) == UnitsText([[c]], 11);
  }

  lemma DecimalsAre()
    ensures Decimal(8) == "8" && Decimal(11) == "11"
  {}

  /** The first text opens the file. */
  function Appended(file: Saved, text: string): Saved {
    if text == "" then file
    else match file
      case NoFile => File(FileHeader() + "\n\n" + text)
      case File(t) => File(t + text)
  }

  lemma FileGrows(body: string, text: string)
    ensures Appended(FileOf(body), text) == FileOf(body + text)
  {
    assert body + "" == body && "" + text == text;
    assert FileHeader() + "\n\n" + body + text == FileHeader() + "\n\n" + (body + text);
  }

  // ---------------------------------------------------------------- reading what was written

  /** Fits into one line of a C program's buffer. */
  predicate OneLine(s: string) {
    |s| <= 1022 && forall i :: 0 <= i < |s| ==> s[i] != '\n' && s[i] != '\0'
  }

  /** A name that survives being a line of its own. */
  predicate Plain(name: string) {
    name != "" && !IsSpace(name[|name| - 1]) && !IsUnitLine(name) && OneLine(name)
  }

  lemma {:induction false} LineEnds(text: string, p: nat, n: nat, room: nat)
    requires p + n < |text| && n < room && text[p + n] == '\n' && forall i :: p <= i < p + n ==> text[i] != '\n'
    ensures LineLength(text, p, room) == n + 1
    decreases n
  {
    if n > 0 {
      LineEnds(text, p + 1, n - 1, room - 1);
    }
  }

  lemma {:induction false} CutWhole(line: string)
    requires forall i :: 0 <= i < |line| ==> line[i] != '\0'
    ensures Cut(line) == line
  {
    if line != "" {
      CutWhole(line[1..]);
    }
  }

  /** The text has this piece at p. */
  predicate Has(text: string, p: nat, piece: string) {
    p + |piece| <= |text| && text[p..p + |piece|] == piece
  }

  lemma HasBoth(text: string, p: nat, a: string, b: string)
    requires Has(text, p, a + b)
    ensures Has(text, p, a) && Has(text, p + |a|, b)
  {
    var t := text[p..p + |a + b|];
    assert text[p..p + |a|] == t[..|a|] == a;
    assert text[p + |a|..p + |a| + |b|] == t[|a|..] == b;
  }

  /** Any line is read up to its line feed, or for 1023 characters, or to the end of the file. */
  lemma LineIs(text: string, p: nat)
    requires p <= |text|
    ensures var n := |LineAt(text, p)|;
      && LineAt(text, p) == text[p..p + n] && n <= 1023 && (forall i :: p <= i < p + n - 1 ==> text[i] != '\n')
      && (n < 1023 && p + n < |text| ==> n > 0 && text[p + n - 1] == '\n')
  {
    LineStops(text, p, BUFFER - 1);
    NoLineFeed(text, p, BUFFER - 1);
  }

  lemma {:induction false} NoLineFeed(text: string, p: nat, room: nat)
    requires p <= |text|
    ensures forall i :: p <= i < p + LineLength(text, p, room) - 1 ==> text[i] != '\n'
    decreases room
  {
    if room > 0 && p < |text| && text[p] != '\n' {
      NoLineFeed(text, p + 1, room - 1);
    }
  }

  lemma LineRead(text: string, p: nat, line: string)
    requires OneLine(line) && Has(text, p, line + "\n")
    ensures LineAt(text, p) == line + "\n" && !HitsEnd(text, p) && Cut(line + "\n") == line + "\n"
  {
    var whole := line + "\n";
    assert forall i :: 0 <= i < |whole| ==> text[p + i] == text[p..p + |whole|][i] == whole[i];
    LineEnds(text, p, |line|, BUFFER - 1);
    CutWhole(whole);
  }

  /** One written line is one step of the loader. */
  lemma StepLine(s: Loading, text: string, p: nat, line: string, all: bool)
    requires OneLine(line) && Has(text, p, line + "\n") && s.Loading?
    ensures Rest(s, text, p, false, all) == Rest(AfterLine(s, line + "\n", all), text, p + |line| + 1, false, all)
  {
    LineRead(text, p, line);
    hide LineAt, HitsEnd, Cut, AfterLine, Rest;
    RestStep(s, text, p, all);
  }

  lemma RestStep(s: Loading, text: string, p: nat, all: bool)
    requires p <= |text| && s.Loading?
    ensures Rest(s, text, p, false, all) ==
      if LineAt(text, p) == "" then Result(s, false)
      else Rest(AfterLine(s, Cut(LineAt(text, p)), all), text, p + |LineAt(text, p)|, HitsEnd(text, p), all)
  {
    hide Cut, AfterLine, HitsEnd;
  }

  lemma NameLine(s: Loading, name: string, all: bool)
    requires Plain(name) && s.Loading?
    ensures AfterLine(s, name + "\n", all) == AfterName(s, name)
  {
    var line := name + "\n";
    assert line[..|line| - 1] == name;
    if |name| >= 5 {
      assert line[..5] == name[..5];
    } else if |name| == 4 {
      assert line[..5][4] == '\n';
    }
    assert Stripped(name) == name;
  }

  // ---------------------------------------------------------------- unit lines

  lemma {:induction false} DecimalDigits(n: nat)
    ensures var d := Decimal(n); d != "" && Value(d) == n && forall i :: 0 <= i < |d| ==> IsDigit(d[i])
    ensures |Decimal(n)| <= n + 1
  {
    if n >= 10 {
      DecimalDigits(n / 10);
      var d := Decimal(n / 10);
      assert (d + [Digit(n % 10)])[..|d|] == d;
    } else {
      assert [Digit(n)][..0] == "";
    }
  }

  lemma {:induction false} DigitsOf(digits: string, rest: string)
    requires forall i :: 0 <= i < |digits| ==> IsDigit(digits[i])
    requires rest != "" && !IsDigit(rest[0])
    ensures Digits(digits + rest) == digits
  {
    if digits == "" {
      assert digits + rest == rest;
    } else {
      DigitsOf(digits[1..], rest);
      assert (digits + rest)[1..] == digits[1..] + rest;
    }
  }

  /** Reading a number back. */
  lemma ParseDecimal(n: nat)
    ensures ParseLong(Decimal(n) + "\n") == Number(n)
  {
    DecimalDigits(n);
    DigitsOf(Decimal(n), "\n");
    var s := Decimal(n) + "\n";
    assert s[0] == Decimal(n)[0] && IsDigit(s[0]) && SkipSpaces(s) == s;
  }

  /** White space and a sign may come before a number. */
  lemma ParseSigned(space: string, n: nat)
    requires forall i :: 0 <= i < |space| ==> IsSpace(space[i])
    ensures ParseLong(space + (Decimal(n) + "\n")) == Number(n)
    ensures ParseLong("+" + (space + (Decimal(n) + "\n"))) == Number(n)
    ensures ParseLong("-" + (space + (Decimal(n) + "\n"))) == Number(-(n as int))
  {
    var number := Decimal(n) + "\n";
    DecimalDigits(n);
    DigitsOf(Decimal(n), "\n");
    SpacesSkipped(space, number);
    hide Decimal, SkipSpaces, Digits, Value;
    assert number[0] == Decimal(n)[0];
    ParseAfter("+", space + number, Decimal(n));
    ParseAfter("-", space + number, Decimal(n));
    if space == "" {
      assert space + number == number;
    }
    assert (space + number)[0] == if space == "" then number[0] else space[0];
  }

  lemma ParseAfter(sign: string, s: string, digits: string)
    requires (sign == "+" || sign == "-") && Digits(SkipSpaces(s)) == digits != ""
    ensures ParseLong(sign + s) == Number(if sign == "-" then -Value(digits) else Value(digits))
  {
    assert (sign + s)[1..] == s && (sign + s)[0] == sign[0];
    hide Digits, SkipSpaces, Value;
  }

  lemma {:induction false} SpacesSkipped(space: string, rest: string)
    requires (forall i :: 0 <= i < |space| ==> IsSpace(space[i])) && rest != "" && !IsSpace(rest[0])
    ensures SkipSpaces(space + rest) == rest
  {
    if space == "" {
      assert space + rest == rest;
    } else {
      assert (space + rest)[1..] == space[1..] + rest;
      SpacesSkipped(space[1..], rest);
    }
  }

  lemma UnitLine(s: Loading, unit: nat, all: bool)
    requires FIRST <= unit < FIRST + DRIVES && s.Loading?
    ensures OneLine("UNIT " + Decimal(unit))
    ensures AfterLine(s, "UNIT " + Decimal(unit) + "\n", all) == if all then s.(unit := unit) else s
  {
    var line := "UNIT " + Decimal(unit) + "\n";
    ParseDecimal(unit);
    DecimalDigits(unit);
    hide Decimal, ParseLong;
    assert line[5..] == Decimal(unit) + "\n" && line[..5] == "UNIT ";
  }

  // ---------------------------------------------------------------- the round trip

  function Reversed(s: seq<string>): seq<string> {
    if s == [] then [] else Reversed(s[1..]) + [s[0]]
  }

  /** The loader after adding names at the head of a list one by one. */
  function Pushed(s: Loading, unit: nat, names: seq<string>): (t: Loading)
    requires s.Loading? && FIRST <= unit < FIRST + DRIVES
    ensures t.Loading?
  {
    Loading(unit, s.lists[unit - FIRST := Reversed(names) + s.lists[unit - FIRST]])
  }

  lemma {:induction false} NamesLoad(s: Loading, unit: nat, names: seq<string>, text: string, p: nat, all: bool)
    requires s.Loading? && s.unit == unit && FIRST <= unit < FIRST + DRIVES
    requires (forall name <- names :: Plain(name)) && Has(text, p, Lines(names))
    ensures Rest(s, text, p, false, all) == Rest(Pushed(s, unit, names), text, p + |Lines(names)|, false, all)
    decreases |names|
  {
    hide Rest, AfterLine, Plain, Has;
    if names == [] {
      assert [] + s.lists[unit - FIRST] == s.lists[unit - FIRST];
      assert Pushed(s, unit, names).lists == s.lists;
    } else {
      var name, more := names[0], names[1..];
      assert Plain(name);
      PlainOne(name);
      HasBoth(text, p, name + "\n", Lines(more));
      StepLine(s, text, p, name, all);
      NameLine(s, name, all);
      NamesLoad(AfterName(s, name), unit, more, text, p + |name| + 1, all);
      PushedMore(s, unit, names);
      hide AfterName, Pushed;
    }
  }

  lemma PlainOne(name: string)
    requires Plain(name)
    ensures OneLine(name)
  {}

  lemma PushedMore(s: Loading, unit: nat, names: seq<string>)
    requires s.Loading? && s.unit == unit && FIRST <= unit < FIRST + DRIVES && names != []
    ensures Pushed(AfterName(s, names[0]), unit, names[1..]) == Pushed(s, unit, names)
  {
    var k := unit - FIRST;
    assert Reversed(names[1..]) + ([names[0]] + s.lists[k]) == Reversed(names) + s.lists[k];
  }

  /** What loading all drives leaves in one of them. */
  function AllPushed(s: Loading, unit: nat, lists: seq<seq<string>>): (t: Loading)
    requires s.Loading? && FIRST <= unit && unit + |lists| == FIRST + DRIVES
    ensures t.Loading?
    decreases |lists|
  {
    if lists == [] then s
    else AllPushed(PushedIfAny(s, unit, lists[0]), unit + 1, lists[1..])
  }

  lemma UnitLoads(s: Loading, unit: nat, names: seq<string>, text: string, p: nat, all: bool)
    requires s.Loading? && FIRST <= unit < FIRST + DRIVES && (!all ==> s.unit == unit)
    requires (forall name <- names :: Plain(name)) && Has(text, p, UnitText(unit, names))
    ensures var t := PushedIfAny(s, unit, names);
      Rest(s, text, p, false, all) == Rest(t, text, p + |UnitText(unit, names)|, false, all)
  {
    hide Rest, AfterLine, Plain, Lines, Decimal, Has;
    if names != [] {
      var line := "UNIT " + Decimal(unit);
      UnitLine(s, unit, all);
      HasBoth(text, p, line + "\n", Lines(names));
      StepLine(s, text, p, line, all);
      NamesLoad(if all then s.(unit := unit) else s, unit, names, text, p + |line| + 1, all);
    }
  }

  ghost predicate AllPlain(lists: seq<seq<string>>) {
    forall names <- lists, name <- names :: Plain(name)
  }

  lemma {:induction false} UnitsLoad(s: Loading, unit: nat, lists: seq<seq<string>>, text: string, p: nat)
    requires s.Loading? && FIRST <= unit && unit + |lists| == FIRST + DRIVES && AllPlain(lists)
    requires Has(text, p, UnitsText(lists, unit)) && p + |UnitsText(lists, unit)| == |text|
    ensures Rest(s, text, p, false, true) == Result(AllPushed(s, unit, lists), false)
    decreases |lists|
  {
    hide Rest, AfterLine, Plain, UnitText, Has, PushedIfAny;
    if lists == [] {
      AtTheEnd(s, text, true);
    } else {
      HasBoth(text, p, UnitText(unit, lists[0]), UnitsText(lists[1..], unit + 1));
      UnitLoads(s, unit, lists[0], text, p, true);
      UnitsLoad(PushedIfAny(s, unit, lists[0]), unit + 1, lists[1..], text, p + |UnitText(unit, lists[0])|);
    }
  }

  lemma AtTheEnd(s: Loading, text: string, all: bool)
    requires s.Loading?
    ensures Rest(s, text, |text|, false, all) == Result(s, false)
  {}

  function Mapped(lists: Lists): Lists {
    [Reversed(lists[0]), Reversed(lists[1]), Reversed(lists[2]), Reversed(lists[3])]
  }

  /** One list pushed, if there is anything in it. */
  function PushedIfAny(s: Loading, unit: nat, names: seq<string>): (t: Loading)
    requires s.Loading? && FIRST <= unit < FIRST + DRIVES
    ensures t.Loading?
  {
    if names == [] then s else Pushed(s, unit, names)
  }

  lemma PushedAt(s: Loading, unit: nat, names: seq<string>, k: nat)
    requires s.Loading? && FIRST <= unit < FIRST + DRIVES && k < DRIVES
    ensures PushedIfAny(s, unit, names).lists[k] ==
      if k == unit - FIRST then Reversed(names) + s.lists[k] else s.lists[k]
  {
    if names == [] {
      assert Reversed(names) + s.lists[k] == s.lists[k];
    } else {
      hide Reversed;
    }
  }

  lemma {:induction false} AllPushedAt(s: Loading, unit: nat, lists: seq<seq<string>>, k: nat)
    requires s.Loading? && FIRST <= unit && unit + |lists| == FIRST + DRIVES && k < DRIVES
    ensures AllPushed(s, unit, lists).lists[k] ==
      if FIRST + k < unit then s.lists[k] else Reversed(lists[FIRST + k - unit]) + s.lists[k]
    decreases |lists|
  {
    hide Reversed, Pushed, PushedIfAny;
    if lists != [] {
      var t, more := PushedIfAny(s, unit, lists[0]), lists[1..];
      PushedAt(s, unit, lists[0], k);
      AllPushedAt(t, unit + 1, more, k);
      hide AllPushed;
      assert FIRST + k > unit ==> more[FIRST + k - unit - 1] == lists[FIRST + k - unit];
    }
  }

  /** Where the header, the empty line below it and the rest stand. */
  lemma HeaderHas(body: string)
    ensures var header, text := FileHeader(), FileHeader() + "\n\n" + body;
      Has(text, 0, header + "\n") && Has(text, |header| + 1, "" + "\n") && Has(text, |header| + 2, body)
  {
    hide FileHeader;
    var header, text := FileHeader(), FileHeader() + "\n\n" + body;
    assert text[0..|header| + 1] == header + "\n";
    assert text[|header| + 1..|header| + 2] == "" + "\n";
    assert text[|header| + 2..|header| + 2 + |body|] == body;
  }

  lemma HeaderFits()
    ensures OneLine(FileHeader()) && OneLine("") && FileHeader() <= FileHeader() + "\n"
  {}

  /** The header and the empty line below it. */
  lemma HeaderLoads(lists: Lists, body: string, unit: nat)
    requires unit == UNSET || FIRST <= unit < FIRST + DRIVES
    ensures var text := FileHeader() + "\n\n" + body;
      && Has(text, |FileHeader()| + 2, body)
      && Load(lists, text, unit) == Rest(Cleared(lists, unit), text, |FileHeader()| + 2, false, unit == UNSET)
  {
    HeaderHas(body);
    var text, s := FileHeader() + "\n\n" + body, Cleared(lists, unit);
    hide FileHeader, Has, Load, Rest, Cleared;
    FirstLine(lists, text, unit);
    SecondLine(s, text, |FileHeader()| + 1, unit == UNSET);
  }

  lemma FirstLine(lists: Lists, text: string, unit: nat)
    requires unit == UNSET || FIRST <= unit < FIRST + DRIVES
    requires Has(text, 0, FileHeader() + "\n")
    ensures Load(lists, text, unit) == Rest(Cleared(lists, unit), text, |FileHeader()| + 1, false, unit == UNSET)
  {
    HeaderFits();
    hide FileHeader, Has, Rest, Cleared;
    LineRead(text, 0, FileHeader());
    LoadIs(lists, text, unit);
    hide LineAt, HitsEnd, Cut, Load;
    assert |FileHeader() + "\n"| == |FileHeader()| + 1;
  }

  lemma SecondLine(s: Loading, text: string, p: nat, all: bool)
    requires s.Loading? && Has(text, p, "" + "\n")
    ensures Rest(s, text, p, false, all) == Rest(s, text, p + 1, false, all)
  {
    HeaderFits();
    EmptyLine(s, all);
    hide Has, Rest, AfterLine;
    StepLine(s, text, p, "", all);
  }

  lemma EmptyLine(s: Loading, all: bool)
    requires s.Loading?
    ensures AfterLine(s, "" + "\n", all) == s
  {
    var line := "" + "\n";
    assert line == ['\n'] && line[..0] == "";
    assert Stripped(line) == Stripped("");
  }

  /**
   * Saving all drives and loading all of them gives every list back reversed,
   * whatever was there before; and the source then reports an error, because
   * it looks for a line after the last one.
   */
  lemma SaveLoadAll(lists: Lists, was: Lists)
    requires AllPlain(lists) && Save(lists, FIRST).File?
    ensures var r := Load(was, Save(lists, FIRST).text, UNSET);
      r.Result? && !r.ok && r.end.Loading? && r.end.lists == Mapped(lists)
  {
    var body := UnitsText(lists, FIRST);
    HeaderLoads(was, body, UNSET);
    hide Rest, UnitsText, Has, AllPushed, Load, FileHeader, Mapped;
    UnitsLoad(Cleared(was, UNSET), FIRST, lists, FileHeader() + "\n\n" + body, |FileHeader()| + 2);
    AllPushedClean(lists);
  }

  lemma AllPushedClean(lists: Lists)
    ensures AllPushed(Loading(UNSET, [[], [], [], []]), FIRST, lists).lists == Mapped(lists)
  {
    var s := Loading(UNSET, [[], [], [], []]);
    forall k | 0 <= k < DRIVES ensures AllPushed(s, FIRST, lists).lists[k] == Reversed(lists[k]) {
      AllPushedAt(s, FIRST, lists, k);
      NothingAfter(Reversed(lists[k]));
    }
    hide Reversed, AllPushed;
  }

  lemma NothingAfter(s: seq<string>)
    ensures s + [] == s
  {}

  /** One drive saved and loaded alone: its list comes back reversed, the others stay. */
  lemma SaveLoadDrive(names: seq<string>, unit: nat, was: Lists)
    requires FIRST <= unit < FIRST + DRIVES && names != [] && AllPlain([names])
    ensures Save([names], unit).File?
    ensures Load(was, Save([names], unit).text, unit) ==
      Result(Loading(unit, was[unit - FIRST := Reversed(names)]), false)
  {
    var body, s := UnitText(unit, names), Cleared(was, unit);
    var text := FileHeader() + "\n\n" + body;
    OneUnit(names, unit);
    assert Save([names], unit) == File(text) && names in [names];
    PushedAlone(was, unit, names);
    hide Save, UnitText, UnitsText, FileHeader, FileOf;
    HeaderLoads(was, body, unit);
    assert PushedIfAny(s, unit, names) == Pushed(s, unit, names);
    hide Rest, Has, Load, Cleared, Pushed, Plain, PushedIfAny;
    UnitLoads(s, unit, names, text, |FileHeader()| + 2, false);
    AtTheEnd(Pushed(s, unit, names), text, false);
  }

  lemma OneUnit(names: seq<string>, unit: nat)
    requires names != []
    ensures UnitsText([names], unit) == UnitText(unit, names) != ""
  {
    hide Lines, Decimal;
    assert [names][1..] == [] && UnitText(unit, names) + "" == UnitText(unit, names);
  }

  lemma PushedAlone(was: Lists, unit: nat, names: seq<string>)
    requires FIRST <= unit < FIRST + DRIVES
    ensures Pushed(Cleared(was, unit), unit, names) == Loading(unit, was[unit - FIRST := Reversed(names)])
  {
    hide Reversed;
    NothingAfter(Reversed(names));
    assert was[unit - FIRST := []][unit - FIRST := Reversed(names)] == was[unit - FIRST := Reversed(names)];
  }

  lemma {:induction false} ReversedAppend(s: seq<string>, x: string)
    ensures Reversed(s + [x]) == [x] + Reversed(s)
  {
    if s == [] {
      assert [] + [x] == [x] && [x][1..] == [];
    } else {
      ReversedAppend(s[1..], x);
      assert (s + [x])[1..] == s[1..] + [x];
    }
  }

  lemma {:induction false} ReversedTwice(s: seq<string>)
    ensures Reversed(Reversed(s)) == s
    ensures forall x :: x in Reversed(s) <==> x in s
  {
    if s != [] {
      ReversedTwice(s[1..]);
      ReversedAppend(Reversed(s[1..]), s[0]);
      assert s == [s[0]] + s[1..];
    }
  }

  lemma UnitsTextEmpty(lists: Lists)
    ensures Save(lists, FIRST).File? <==> exists k :: 0 <= k < DRIVES && lists[k] != []
  {
    hide Lines, Decimal;
    assert lists == [lists[0]] + lists[1..];
    assert lists[1..] == [lists[1]] + lists[2..];
    assert lists[2..] == [lists[2]] + lists[3..];
    assert lists[3..] == [lists[3]];
    assert UnitsText(lists[3..], 11) == UnitText(11, lists[3]) + "" == UnitText(11, lists[3]);
    assert UnitsText(lists[2..], 10) == UnitText(10, lists[2]) + UnitsText(lists[3..], 11);
    assert UnitsText(lists[1..], 9) == UnitText(9, lists[1]) + UnitsText(lists[2..], 10);
    assert UnitsText(lists, 8) == UnitText(8, lists[0]) + UnitsText(lists[1..], 9);
  }

  /** Saving and loading a second time gives the lists of the beginning. */
  lemma SaveLoadTwice(lists: Lists, was: Lists)
    requires AllPlain(lists) && Save(lists, FIRST).File?
    ensures var once := Load(was, Save(lists, FIRST).text, UNSET);
      && once.Result? && once.end.Loading? && Save(once.end.lists, FIRST).File?
      && var twice := Load(once.end.lists, Save(once.end.lists, FIRST).text, UNSET);
        twice.Result? && twice.end.Loading? && twice.end.lists == lists
  {
    SaveLoadAll(lists, was);
    var m := Mapped(lists);
    forall k | 0 <= k < DRIVES ensures Reversed(m[k]) == lists[k] && (m[k] == [] <==> lists[k] == [])
      && forall name :: name in m[k] <==> name in lists[k]
    {
      ReversedTwice(lists[k]);
    }
    assert AllPlain(m) by {
      forall names, name | names in m && name in names ensures Plain(name) {
        var k :| 0 <= k < DRIVES && m[k] == names;
        assert lists[k] in lists && name in lists[k];
      }
    }
    assert Mapped(m) == lists;
    UnitsTextEmpty(lists);
    UnitsTextEmpty(m);
    hide Load, Save, Mapped, AllPlain;
    SaveLoadAll(m, m);
  }

  ghost predicate LinesFit(text: string) {
    forall q: nat :: q < |text| ==> |LineAt(text, q)| < BUFFER - 1
  }

  /** A file whose last line ends like the others is never reported as loaded; any other is, if its lines fit. */
  lemma {:induction false} RestReports(s: Loading, text: string, p: nat, all: bool)
    requires p < |text|
    ensures text[|text| - 1] == '\n' ==> Rest(s, text, p, false, all).Result? && !Rest(s, text, p, false, all).ok
    ensures text[|text| - 1] != '\n' && LinesFit(text) ==>
      var r := Rest(s, text, p, false, all);
      r.Result? && (r.ok <==> r.end.Loading?)
    decreases |text| - p
  {
    hide LineLength, AfterLine, Cut;
    if s.Loading? {
      RestStep(s, text, p, all);
      var line := LineAt(text, p);
      var q, t := p + |line|, AfterLine(s, Cut(line), all);
      if q < |text| {
        LineGoesOn(text, p);
        if t.Loading? {
          RestReports(t, text, q, all);
        }
      } else if t.Loading? {
        assert line[|line| - 1] == text[|text| - 1];
        RestStep(t, text, q, all);
      }
    }
  }

  lemma {:induction false} LineStops(text: string, p: nat, room: nat)
    requires p <= |text|
    ensures var n := LineLength(text, p, room); p + n < |text| && n < room ==> n > 0 && text[p + n - 1] == '\n'
    decreases room
  {
    if room > 0 && p < |text| && text[p] != '\n' {
      LineStops(text, p + 1, room - 1);
    }
  }

  lemma LineGoesOn(text: string, p: nat)
    requires p <= |text| && p + |LineAt(text, p)| < |text|
    ensures !HitsEnd(text, p)
  {
    LineStops(text, p, BUFFER - 1);
  }

  // ---------------------------------------------------------------- the four rings

  datatype Outcome = NoFlipList | Stopped | Reported(ok: bool)

  datatype Progress = Going | Over(r: Outcome)

  /** What the source returns and leaves, where it does not go astray. */
  ghost predicate Ends(end: Result, r: Outcome, unit: nat, lists: Lists) {
    match end
    case Refused => r == NoFlipList
    case Result(Wild, _) => r == Stopped
    case Result(Loading(u, l), ok) => r == Reported(ok) && unit == u && lists == l
  }

  /** A file that is no flip list changes nothing; the current drive is the last unit when no error is reported. */
  ghost predicate Loads(end: Result, r: Outcome, was: Lists, wasDrive: nat, lists: Lists, drive: nat) {
    && (r == NoFlipList <==> end.Refused?)
    && (r == NoFlipList ==> lists == was)
    && (r == Stopped <==> end.Result? && end.end.Wild?)
    && (r.Reported? ==> r.ok == end.ok && lists == end.end.lists)
    && drive == if r == Reported(true) then end.end.unit else wasDrive
  }

  lemma LoadsNothing(was: Lists, wasDrive: nat)
    ensures Loads(Refused, NoFlipList, was, wasDrive, was, wasDrive)
  {}

  lemma LoadsAll(end: Result, r: Outcome, was: Lists, wasDrive: nat, lists: Lists, unit: nat)
    requires Ends(end, r, unit, lists) && end.Result?
    ensures Loads(end, r, was, wasDrive, lists, if r == Reported(true) then unit else wasDrive)
  {}

  lemma {:induction false} RestIsResult(s: Loading, text: string, p: nat, atEnd: bool, all: bool)
    requires p <= |text|
    ensures Rest(s, text, p, atEnd, all).Result?
    decreases |text| - p
  {
    if s.Loading? && !atEnd && LineAt(text, p) != "" {
      RestIsResult(AfterLine(s, Cut(LineAt(text, p)), all), text, p + |LineAt(text, p)|, HitsEnd(text, p), all);
    }
  }

  lemma ReportEnds(s: Loading, ok: bool)
    requires s.Loading?
    ensures Ends(Result(s, ok), Reported(ok), s.unit, s.lists)
  {}

  lemma StopEnds(unit: nat, lists: Lists)
    ensures Ends(Result(Wild, false), Stopped, unit, lists)
  {}

  class FlipLists {
    const rings: seq<Ring>
    var currentDrive: nat
    ghost var repr: set<object>

    /** Four rings, each of nodes of its own unit. */
    ghost predicate Valid()
      reads this`repr, repr
    {
      && |rings| == DRIVES && (forall i, j :: 0 <= i < j < DRIVES ==> rings[i] != rings[j])
      && (forall k :: 0 <= k < DRIVES ==> rings[k] in repr && (forall n <- rings[k].nodes :: n in repr))
      && (forall k :: 0 <= k < DRIVES ==> rings[k].Valid())
      && (forall k :: 0 <= k < DRIVES ==> OfUnit(rings[k].nodes, FIRST + k))
    }

    ghost predicate OfUnit(nodes: seq<Node>, unit: nat) {
      forall n <- nodes :: n.unit == unit
    }

    /** The images of every drive. */
    ghost function Images(): Lists
      requires |rings| == DRIVES
      reads rings
    {
      [ImagesOf(rings[0].nodes), ImagesOf(rings[1].nodes), ImagesOf(rings[2].nodes), ImagesOf(rings[3].nodes)]
    }

    constructor ()
      ensures Valid() && fresh(repr) && Images() == [[], [], [], []]
    {
      var empty := EmptyRings();
      rings := empty;
      repr := set r <- empty;
      currentDrive := FIRST;
      new;
      FourEmpty();
      hide Valid, Images;
    }

    static method EmptyRings() returns (rings: seq<Ring>)
      ensures |rings| == DRIVES && fresh(rings)
      ensures forall i, j :: 0 <= i < j < DRIVES ==> rings[i] != rings[j]
      ensures forall r <- rings :: r.nodes == [] && r.head == null
    {
      rings := [];
      while |rings| < DRIVES
        invariant |rings| <= DRIVES && fresh(rings)
        invariant forall i, j :: 0 <= i < j < |rings| ==> rings[i] != rings[j]
        invariant forall r <- rings :: r.nodes == [] && r.head == null
      {
        var r := new Ring();
        rings := rings + [r];
      }
    }

    lemma FourEmpty()
      requires |rings| == DRIVES && (forall i, j :: 0 <= i < j < DRIVES ==> rings[i] != rings[j])
      requires forall k :: 0 <= k < DRIVES ==> rings[k] in repr && rings[k].nodes == [] && rings[k].head == null
      ensures Valid() && Images() == [[], [], [], []]
    {}

    lemma FourRings()
      requires Valid()
      ensures |rings| == DRIVES
    {}

    /** A change of one ring leaves the others as they are. */
    twostate lemma OthersStay(k: nat)
      requires k < DRIVES && old(Valid()) && old(repr) <= repr && rings[k].Valid()
      requires OfUnit(rings[k].nodes, FIRST + k)
      requires rings[k] in repr && forall n <- rings[k].nodes :: n in repr
      requires forall i :: 0 <= i < DRIVES && i != k ==> unchanged(rings[i])
      requires forall i, n: Node :: 0 <= i < DRIVES && i != k && n in rings[i].nodes && n !in old(rings[k].nodes) ==>
        n.next == old(n.next) && n.prev == old(n.prev)
      ensures Valid()
      ensures Images() == old(Images())[k := ImagesOf(rings[k].nodes)]
    {
      hide ImagesOf, Linked, Distinct, OfUnit;
      forall i | 0 <= i < DRIVES && i != k ensures rings[i].nodes == old(rings[i].nodes) && rings[i].Valid() {
        assert unchanged(rings[i]);
        UnitsApart(rings[i].nodes, FIRST + i, old(rings[k].nodes), FIRST + k);
        RingStays(rings[i]);
      }
    }

    lemma UnitsApart(a: seq<Node>, m: nat, b: seq<Node>, n: nat)
      requires OfUnit(a, m) && OfUnit(b, n) && m != n
      ensures forall x <- a :: x !in b
    {}

    /** Puts a new image at the head of one list. */
    method AddTo(k: nat, name: string)
      requires Valid() && k < DRIVES && name != ""
      modifies this, repr
      ensures Valid() && fresh(repr - old(repr)) && currentDrive == old(currentDrive)
      ensures Images() == old(Images())[k := [name] + old(Images()[k])]
    {
      hide Linked, Distinct, ImagesOf;
      ghost var before := rings[k].nodes;
      rings[k].AddImage(name, FIRST + k);
      assert rings[k].nodes == [rings[k].nodes[0]] + before;
      ImagesCons(rings[k].nodes);
      repr := repr + {rings[k].nodes[0]};
      OthersStay(k);
    }

    method ClearOne(k: nat)
      requires Valid() && k < DRIVES
      modifies this, repr
      ensures Valid() && repr == old(repr) && currentDrive == old(currentDrive)
      ensures Images() == old(Images())[k := []]
    {
      hide Linked, Distinct, ImagesOf;
      rings[k].Clear();
      OthersStay(k);
    }

    method ClearFor(drive: nat)
      requires Valid() && (drive == UNSET || FIRST <= drive < FIRST + DRIVES)
      modifies this, repr
      ensures Valid() && repr == old(repr) && currentDrive == old(currentDrive)
      ensures Loading(drive, Images()) == Cleared(old(Images()), drive)
    {
      FourRings();
      hide Valid, Images;
      if drive == UNSET {
        ClearOne(0);
        ClearOne(1);
        ClearOne(2);
        ClearOne(3);
        AllCleared(old(Images()));
      } else {
        ClearOne(drive - FIRST);
      }
    }

    /** What one line does; not ok where the source would go astray. */
    method TakeLine(line: string, was: nat, all: bool) returns (unit: nat, ok: bool)
      requires Valid()
      modifies this, repr
      ensures Valid() && fresh(repr - old(repr)) && currentDrive == old(currentDrive)
      ensures match AfterLine(Loading(was, old(Images())), line, all)
        case Wild => !ok
        case Loading(u, lists) => ok && unit == u && Images() == lists
    {
      FourRings();
      hide ParseLong, ImagesOf, Valid;
      unit, ok := was, true;
      if IsUnitLine(line) {
        if all {
          match ParseLong(line[5..])
          case NoNumber => ok := false;
          case Number(value) => unit := value % WORD;
        }
        return;
      }
      var end := |line|;
      assert line[..end] == line;
      while end > 0 && IsSpace(line[end - 1])
        invariant 0 <= end <= |line| && Stripped(line[..end]) == Stripped(line)
      {
        assert line[..end][..end - 1] == line[..end - 1];
        end := end - 1;
      }
      assert Stripped(line) == line[..end];
      hide Stripped;
      if end > 0 {
        if unit == UNSET {
          unit := FIRST;
        }
        if !(FIRST <= unit < FIRST + DRIVES) {
          ok := false;
          return;
        }
        AddTo(unit - FIRST, line[..end]);
      }
    }

    /** Reads and takes one line; the outcome is there when no other is read. */
    method NextLine(text: string, p: nat, was: nat, all: bool) returns (q: nat, atEnd: bool, unit: nat, over: Progress)
      requires Valid() && p <= |text|
      modifies this, repr
      ensures Valid() && fresh(repr - old(repr)) && currentDrive == old(currentDrive)
      ensures over.Going? ==> p < q <= |text|
      ensures over.Going? ==>
        Rest(Loading(was, old(Images())), text, p, false, all) == Rest(Loading(unit, Images()), text, q, atEnd, all)
      ensures over.Over? ==> Ends(Rest(Loading(was, old(Images())), text, p, false, all), over.r, unit, Images())
    {
      FourRings();
      hide LineAt, HitsEnd, Cut, AfterLine, Images, Valid, Rest, Ends;
      ghost var s := Loading(was, Images());
      var line := LineAt(text, p);
      q, atEnd, unit := p + |line|, HitsEnd(text, p), was;
      if |line| == 0 {
        RestNone(s, text, p, all);
        ReportEnds(s, false);
        over := Over(Reported(false));
      } else {
        RestMore(s, text, p, all);
        var ok;
        unit, ok := TakeLine(Cut(line), was, all);
        if ok {
          over := Going;
        } else {
          RestEnds(Wild, text, q, atEnd, all);
          StopEnds(unit, Images());
          over := Over(Stopped);
        }
      }
    }

    /** The lines from p on. */
    method LoadRest(text: string, start: nat, startsAtEnd: bool, drive: nat, all: bool) returns (r: Outcome, unit: nat)
      requires Valid() && start <= |text|
      modifies this, repr
      ensures Valid() && fresh(repr - old(repr)) && currentDrive == old(currentDrive)
      ensures Ends(Rest(Loading(drive, old(Images())), text, start, startsAtEnd, all), r, unit, Images())
    {
      FourRings();
      hide Images, Valid, Rest, Ends;
      var p, atEnd := start, startsAtEnd;
      unit := drive;
      ghost var whole := Rest(Loading(unit, Images()), text, p, atEnd, all);
      while !atEnd
        invariant p <= |text| && Valid() && fresh(repr - old(repr)) && currentDrive == old(currentDrive)
        invariant Rest(Loading(unit, Images()), text, p, atEnd, all) == whole
        decreases |text| - p, if atEnd then 0 else 1
      {
        var over;
        p, atEnd, unit, over := NextLine(text, p, unit, all);
        if over.Over? {
          return over.r, unit;
        }
      }
      RestEnds(Loading(unit, Images()), text, p, atEnd, all);
      ReportEnds(Loading(unit, Images()), true);
      return Reported(true), unit;
    }

    method SetDrive(unit: nat)
      requires Valid()
      modifies this`currentDrive
      ensures Valid() && currentDrive == unit && Images() == old(Images())
    {
      currentDrive := unit;
    }

    /** Replaces the list of one drive, or all of them, by what the text says. */
    method LoadLists(text: string, drive: nat) returns (r: Outcome)
      requires Valid() && (drive == UNSET || FIRST <= drive < FIRST + DRIVES)
      modifies this, repr
      ensures Valid() && fresh(repr - old(repr))
      ensures Loads(Load(old(Images()), text, drive), r, old(Images()), old(currentDrive), Images(), currentDrive)
    {
      FourRings();
      LoadIs(Images(), text, drive);
      LoadsNothing(Images(), currentDrive);
      hide LineAt, HitsEnd, Cut, Rest, FileHeader, Images, Valid, Load, Cleared, Ends, Loads;
      ghost var whole := Load(Images(), text, drive);
      var line := LineAt(text, 0);
      if !(FileHeader() <= Cut(line)) {
        return NoFlipList;
      }
      ClearFor(drive);
      var unit;
      r, unit := LoadRest(text, |line|, HitsEnd(text, 0), drive, drive == UNSET);
      RestIsResult(Cleared(old(Images()), drive), text, |line|, HitsEnd(text, 0), drive == UNSET);
      LoadsAll(whole, r, old(Images()), currentDrive, Images(), unit);
      if r == Reported(true) {
        SetDrive(unit);
      }
    }

    /** The lines of one drive; none for an empty list. */
    method WriteUnit(k: nat) returns (text: string)
      requires Valid() && k < DRIVES
      ensures text == UnitText(FIRST + k, Images()[k])
    {
      text := "";
      hide Linked, Distinct, Decimal;
      var flip := rings[k].head;
      ghost var nodes := rings[k].nodes;
      if flip != null {
        text := "UNIT " + Decimal(FIRST + k) + "\n";
        ghost var names := ImagesOf(nodes);
        ghost var whole := UnitText(FIRST + k, names);
        ghost var i, n := 0, |nodes|;
        assert names[0..] == names;
        while true
          invariant 0 <= i < n && flip == nodes[i] && text + Lines(names[i..]) == whole
          decreases n - i
        {
          ImageAt(nodes, i);
          LinesStep(names, i, text);
          NextInRing(nodes, i);
          text := text + flip.image + "\n";
          flip := flip.next;
          i := i + 1;
          if flip == rings[k].head {
            BackAtHead(nodes, i);
            break;
          }
        }
        assert names[i..] == [] && text + "" == text;
      }
    }

    /** Writes the list of one drive, or all of them. */
    method SaveLists(drive: nat) returns (file: Saved)
      requires Valid() && (drive == UNSET || FIRST <= drive < FIRST + DRIVES)
      ensures file == if drive == UNSET then Save(Images(), FIRST) else Save([Images()[drive - FIRST]], drive)
    {
      FourRings();
      hide Save, Valid, Images;
      if drive == UNSET {
        file := SaveUnits(FIRST, DRIVES, Images());
      } else {
        file := SaveUnits(drive, 1, [Images()[drive - FIRST]]);
      }
    }

    method SaveUnits(first: nat, count: nat, ghost lists: seq<seq<string>>) returns (file: Saved)
      requires Valid() && FIRST <= first && first - FIRST + count <= DRIVES && |lists| == count
      requires forall i :: 0 <= i < count ==> lists[i] == Images()[first - FIRST + i]
      ensures file == Save(lists, first)
    {
      FourRings();
      NothingWritten(lists, first);
      hide UnitText, Appended, SavedSoFar, Valid, Images, Save;
      file := NoFile;
      var i := 0;
      while i < count
        invariant Valid() && Images() == old(Images()) && i <= count
        invariant SavedSoFar(file, lists, i, first)
      {
        var text := WriteUnit(first - FIRST + i);
        MoreWritten(file, lists, i, first);
        file := Appended(file, text);
        i := i + 1;
      }
      AllWritten(file, lists, first);
    }

    twostate lemma RingStays(ring: Ring)
      requires old(ring.Valid()) && unchanged(ring)
      requires forall n <- ring.nodes :: n.next == old(n.next) && n.prev == old(n.prev)
      ensures ring.Valid()
    {}
  }

  lemma BackAtHead(nodes: seq<Node>, i: nat)
    requires Distinct(nodes) && 0 < i <= |nodes| && nodes[if i < |nodes| then i else 0] == nodes[0]
    ensures i == |nodes|
  {}

  lemma NextInRing(nodes: seq<Node>, i: nat)
    requires Linked(nodes) && i < |nodes|
    ensures nodes[i].next == nodes[if i + 1 < |nodes| then i + 1 else 0]
  {}

  lemma RestNone(s: Loading, text: string, p: nat, all: bool)
    requires p <= |text| && s.Loading? && |LineAt(text, p)| == 0
    ensures Rest(s, text, p, false, all) == Result(s, false)
  {
    hide LineAt, AfterLine, HitsEnd, Cut;
  }

  lemma RestMore(s: Loading, text: string, p: nat, all: bool)
    requires p <= |text| && s.Loading? && |LineAt(text, p)| > 0
    ensures Rest(s, text, p, false, all) ==
      Rest(AfterLine(s, Cut(LineAt(text, p)), all), text, p + |LineAt(text, p)|, HitsEnd(text, p), all)
  {
    hide LineAt, AfterLine, HitsEnd, Cut;
  }

  lemma RestEnds(s: Loading, text: string, p: nat, atEnd: bool, all: bool)
    requires p <= |text|
    ensures s.Wild? ==> Rest(s, text, p, atEnd, all) == Result(Wild, false)
    ensures s.Loading? && atEnd ==> Rest(s, text, p, atEnd, all) == Result(s, true)
  {}

  lemma {:induction false} ImageAt(nodes: seq<Node>, i: nat)
    requires i < |nodes|
    ensures ImagesOf(nodes)[i] == nodes[i].image
  {
    if i < |nodes| - 1 {
      ImageAt(nodes[..|nodes| - 1], i);
    }
  }

  lemma LinesStep(names: seq<string>, i: nat, text: string)
    requires i < |names|
    ensures text + Lines(names[i..]) == text + names[i] + "\n" + Lines(names[i + 1..])
  {
    assert names[i..][1..] == names[i + 1..];
    assert text + (names[i] + "\n" + Lines(names[i + 1..])) == text + names[i] + "\n" + Lines(names[i + 1..]);
  }

  /** The file once the first i lists have been written. */
  ghost predicate SavedSoFar(file: Saved, lists: seq<seq<string>>, i: nat, unit: nat) {
    i <= |lists| && exists body :: file == FileOf(body) && Written(lists, i, unit, body)
  }

  ghost predicate Written(lists: seq<seq<string>>, i: nat, unit: nat, text: string)
    requires i <= |lists|
  {
    text + UnitsText(lists[i..], unit + i) == UnitsText(lists, unit)
  }

  lemma NothingWritten(lists: seq<seq<string>>, unit: nat)
    ensures SavedSoFar(NoFile, lists, 0, unit)
  {
    hide UnitsText;
    assert lists[0..] == lists;
    assert "" + UnitsText(lists, unit) == UnitsText(lists, unit);
    assert FileOf("") == NoFile && Written(lists, 0, unit, "");
  }

  lemma MoreWritten(file: Saved, lists: seq<seq<string>>, i: nat, unit: nat)
    requires i < |lists| && SavedSoFar(file, lists, i, unit)
    ensures SavedSoFar(Appended(file, UnitText(unit + i, lists[i])), lists, i + 1, unit)
  {
    var text :| file == FileOf(text) && Written(lists, i, unit, text);
    hide UnitText, FileOf, Appended, Written;
    WrittenMore(lists, i, unit, text);
    FileGrows(text, UnitText(unit + i, lists[i]));
  }

  lemma WrittenMore(lists: seq<seq<string>>, i: nat, unit: nat, text: string)
    requires i < |lists| && Written(lists, i, unit, text)
    ensures Written(lists, i + 1, unit, text + UnitText(unit + i, lists[i]))
  {
    hide UnitText;
    assert lists[i..][1..] == lists[i + 1..];
    var a, b := UnitText(unit + i, lists[i]), UnitsText(lists[i + 1..], unit + i + 1);
    assert UnitsText(lists[i..], unit + i) == a + b;
    hide UnitsText;
    assert text + (a + b) == text + a + b;
  }

  lemma AllWritten(file: Saved, lists: seq<seq<string>>, unit: nat)
    requires SavedSoFar(file, lists, |lists|, unit)
    ensures file == Save(lists, unit)
  {
    var text :| file == FileOf(text) && Written(lists, |lists|, unit, text);
    assert text + "" == text;
  }
}
