/**
 * The path normaliser: an in-place rewriter with four states that steps its
 * write pointer back, against resolving components on a stack.
 */
module FindPath {

  // ---------------------------------------------------------------- components

  predicate NoSlash(s: string) {
    forall i :: 0 <= i < |s| ==> s[i] != '/'
  }

  function FirstSlash(s: string): (k: nat)
    ensures k <= |s| && NoSlash(s[..k]) && (k < |s| ==> s[k] == '/')
  {
    if s == "" || s[0] == '/' then 0
    else
      var k := 1 + FirstSlash(s[1..]);
      assert s[..k] == [s[0]] + s[1..][..k - 1];
      k
  }

  /** The components between slashes; always at least one. */
  function Split(s: string): (cs: seq<string>)
    ensures |cs| > 0
  {
    var k := FirstSlash(s);
    if k == |s| then [s] else [s[..k]] + Split(s[k + 1..])
  }

  function Unsplit(cs: seq<string>): string
    requires cs != []
  {
    if |cs| == 1 then cs[0] else cs[0] + "/" + Unsplit(cs[1..])
  }

  lemma {:induction false} UnsplitSplit(s: string)
    ensures Unsplit(Split(s)) == s
    ensures forall c <- Split(s) :: NoSlash(c)
    decreases |s|
  {
    var k := FirstSlash(s);
    if k < |s| {
      UnsplitSplit(s[k + 1..]);
      assert Split(s)[1..] == Split(s[k + 1..]);
      assert s == s[..k] + "/" + s[k + 1..];
    } else {
      assert s[..k] == s;
    }
  }

  lemma {:induction false} FirstSlashAt(piece: string, rest: string)
    requires NoSlash(piece)
    ensures FirstSlash(piece + "/" + rest) == |piece|
  {
    var s := piece + "/" + rest;
    if piece != "" {
      FirstSlashAt(piece[1..], rest);
      assert s[1..] == piece[1..] + "/" + rest;
    }
  }

  lemma SplitAt(piece: string, rest: string)
    requires NoSlash(piece)
    ensures Split(piece + "/" + rest) == [piece] + Split(rest)
  {
    FirstSlashAt(piece, rest);
    var s := piece + "/" + rest;
    assert s[..|piece|] == piece && s[|piece| + 1..] == rest;
  }

  lemma {:induction false} SplitUnsplit(cs: seq<string>)
    requires cs != [] && forall c <- cs :: NoSlash(c)
    ensures Split(Unsplit(cs)) == cs
  {
    if |cs| == 1 {
      var k := FirstSlash(cs[0]);
      assert cs[0] in cs && k == |cs[0]|;
      assert Split(cs[0]) == [cs[0]] == cs;
    } else {
      SplitUnsplit(cs[1..]);
      SplitAt(cs[0], Unsplit(cs[1..]));
    }
  }

  // ---------------------------------------------------------------- resolving on a stack

  /** What a component followed by a slash does to the stack of directories. */
  function Apply(stack: seq<string>, c: string): seq<string> {
    if c == "" || c == "." then stack
    else if c == ".." then (if stack == [] then [] else stack[..|stack| - 1])
    else stack + [c]
  }

  /** The directories from the root down, each followed by a slash. */
  function Render(stack: seq<string>): (s: string)
    ensures s != "" && s[0] == '/' && s[|s| - 1] == '/'
  {
    if stack == [] then "/" else Render(stack[..|stack| - 1]) + stack[|stack| - 1] + "/"
  }

  /** All components but the last are resolved; the last is taken as it is. */
  function Resolve(stack: seq<string>, cs: seq<string>): string
    requires cs != []
    decreases |cs|
  {
    if |cs| == 1 then Render(stack) + cs[0] else Resolve(Apply(stack, cs[0]), cs[1..])
  }

  /** The directories of an absolute path, as they stand. */
  function Directories(cwd: string): seq<string> {
    var cs := Split(WithSlash(cwd));
    if |cs| < 2 then [] else cs[1..|cs| - 1]
  }

  function WithSlash(cwd: string): string {
    if cwd != "" && cwd[|cwd| - 1] == '/' then cwd else cwd + "/"
  }

  lemma {:induction false} RenderIsUnsplit(stack: seq<string>, last: string)
    ensures Unsplit([""] + stack + [last]) == Render(stack) + last
  {
    if stack == [] {
      assert ([""] + [last])[1..] == [last];
      assert Unsplit([""] + [last]) == "" + "/" + last;
      assert [""] + stack + [last] == [""] + [last];
    } else {
      var n := |stack| - 1;
      RenderIsUnsplit(stack[..n], stack[n] + "/" + last);
      UnsplitJoin([""] + stack[..n], stack[n], last);
      assert [""] + stack[..n] + [stack[n], last] == [""] + stack + [last];
      assert Render(stack[..n]) + (stack[n] + "/" + last) == Render(stack) + last;
    }
  }

  lemma {:induction false} UnsplitJoin(cs: seq<string>, a: string, b: string)
    ensures Unsplit(cs + [a, b]) == Unsplit(cs + [a + "/" + b])
  {
    if cs == [] {
      assert [a, b][1..] == [b];
      assert cs + [a, b] == [a, b] && cs + [a + "/" + b] == [a + "/" + b];
    } else {
      UnsplitJoin(cs[1..], a, b);
      assert (cs + [a, b])[1..] == cs[1..] + [a, b];
      assert (cs + [a + "/" + b])[1..] == cs[1..] + [a + "/" + b];
    }
  }

  lemma {:induction false} LastComponent(s: string)
    requires s != "" && s[|s| - 1] == '/'
    ensures |Split(s)| >= 2 && Split(s)[|Split(s)| - 1] == ""
    decreases |s|
  {
    SplitUnfolds(s);
    hide Split, FirstSlash;
    var k := FirstSlash(s);
    var rest := s[k + 1..];
    if rest == "" {
      SplitUnfolds("");
    } else {
      assert rest[|rest| - 1] == s[|s| - 1];
      LastComponent(rest);
    }
    var more := Split(rest);
    assert ([s[..k]] + more)[|more|] == more[|more| - 1];
  }

  lemma SplitUnfolds(s: string)
    ensures var k := FirstSlash(s);
      && Split(s) == (if k == |s| then [s] else [s[..k]] + Split(s[k + 1..]))
      && (s == "" ==> k == 0)
      && (s != "" && s[|s| - 1] == '/' ==> k < |s|)
  {
    assert FirstSlash(s) == |s| ==> s[..|s|] == s;
  }

  /** An absolute path is the rendering of its directories. */
  lemma RenderDirectories(cwd: string)
    requires cwd == "" || cwd[0] == '/'
    ensures Render(Directories(cwd)) == WithSlash(cwd)
    ensures forall c <- Directories(cwd) :: NoSlash(c)
  {
    hide Split, Unsplit, Render;
    var s := WithSlash(cwd);
    var cs, mid := Split(s), Directories(cwd);
    UnsplitSplit(s);
    LastComponent(s);
    FirstComponent(s);
    assert cs == [""] + mid + [""];
    RenderIsUnsplit(mid, "");
    assert Render(mid) + "" == Render(mid);
  }

  lemma FirstComponent(s: string)
    requires s != "" && s[0] == '/'
    ensures Split(s)[0] == ""
  {}

  // ---------------------------------------------------------------- the rewriter

  datatype Result = Failure | Success(path: string)

  /** Can be a component of a path held in a C string. */
  predicate Plain(s: string) {
    forall i :: 0 <= i < |s| ==> s[i] != '/' && s[i] != '\0'
  }

  predicate CString(s: string) {
    forall i :: 0 <= i < |s| ==> s[i] != '\0'
  }

  function StateOf(piece: string): int {
    if piece == "" then 1 else if piece == "." then 2 else if piece == ".." then 3 else 0
  }

  /** The buffer up to pd holds the directories of the stack and the component being read. */
  ghost predicate Holds(buf: array<char>, pd: nat, stack: seq<string>, piece: string)
    reads buf
  {
    && 1 < pd <= buf.Length && buf[0] == '\0' && buf[1..pd] == Render(stack) + piece
    && Plain(piece) && forall c <- stack :: Plain(c)
  }

  /** Copies one character, after stepping back over what it completes. */
  method Copy(buf: array<char>, start: nat, state: int, c: char, ghost stack: seq<string>, ghost piece: string)
      returns (end: nat, next: int)
    requires Holds(buf, start, stack, piece) && start < buf.Length && state == StateOf(piece) && c != '\0'
    modifies buf
    ensures end <= start + 1 <= buf.Length
    ensures c == '/' ==> Holds(buf, end, Apply(stack, piece), "") && next == StateOf("")
    ensures c != '/' ==> Holds(buf, end, stack, piece + [c]) && next == StateOf(piece + [c])
  {
    hide Render, Apply, Split, Resolve, StateOf, Plain;
    StartState();
    StateStep(piece, c);
    PlainStep(piece, c);
    ghost var was := buf[1..start];
    var pd := start;
    next := state;
    if state == 0 {
      if c == '/' {
        next := 1;
      }
    } else if state == 1 {
      if c == '.' {
        next := 2;
      } else if c == '/' {
        pd := pd - 1;
      } else {
        next := 0;
      }
    } else if state == 2 {
      if c == '/' {
        next := 1;
        pd := pd - 2;
      } else if c == '.' {
        next := 3;
      } else {
        next := 0;
      }
    } else {
      if c != '/' {
        next := 0;
      } else {
        next := 1;
        pd := StepBack(buf, pd, stack);
      }
    }
    if c == '/' {
      SlashStep(stack, piece, "");
      if piece != ".." {
        TextBefore(stack, piece);
        assert buf[1..pd] == was[..pd - 1];
      }
      assert buf[1..pd] + "/" == Render(Apply(stack, piece)) + "";
    } else {
      assert buf[1..pd] + [c] == Render(stack) + (piece + [c]);
    }
    buf[pd] := c;
    end := pd + 1;
    assert buf[1..end] == buf[1..pd] + [c];
  }

  /** The base directory, always ended by a slash. */
  method CopyBase(buf: array<char>, cwd: string) returns (pd: nat)
    requires CString(cwd) && (cwd == "" || cwd[0] == '/') && |cwd| + 2 <= buf.Length
    requires forall i :: 0 <= i < buf.Length ==> buf[i] == '\0'
    modifies buf
    ensures pd <= |cwd| + 2 && Holds(buf, pd, Directories(cwd), "")
  {
    hide Render, Directories;
    forall i | 0 <= i < |cwd| {
      buf[i + 1] := cwd[i];
    }
    pd := |cwd|;
    var last := buf[pd];
    pd := pd + 1;
    if last != '/' {
      buf[pd] := '/';
      pd := pd + 1;
    }
    assert buf[1..pd] == WithSlash(cwd);
    RenderDirectories(cwd);
    PlainDirectories(cwd);
    assert WithSlash(cwd) + "" == WithSlash(cwd);
  }

  /**
   * Rewrites cmd after the directory cwd, which is empty when cmd is absolute,
   * dropping empty, `.` and `..` components on the way.
   */
  method Normalise(cmd: string, cwd: string, maxPathLen: nat) returns (r: Result)
    requires CString(cmd) && CString(cwd) && (cwd == "" || cwd[0] == '/') && |cwd| + 128 < maxPathLen
    ensures r.Failure? <==> |cwd| + |cmd| >= maxPathLen - 5
    ensures r.Success? ==> r.path == Resolve(Directories(cwd), Split(cmd))
  {
    hide Split, Resolve, Directories, Render, Apply, StateOf;
    var buf := new char[maxPathLen](_ => '\0');
    if |cwd| + |cmd| >= maxPathLen - 5 {
      return Failure;
    }
    var pd := CopyBase(buf, cwd);
    var ps, state := 0, 1;
    ghost var stack, piece := Directories(cwd), "";
    assert cmd[0..] == cmd && piece + cmd == cmd;
    StartState();
    while ps < |cmd|
      invariant 0 <= ps <= |cmd| && 0 <= pd <= |cwd| + 2 + ps
      invariant Holds(buf, pd, stack, piece) && state == StateOf(piece)
      invariant Resolve(Directories(cwd), Split(cmd)) == Resolve(stack, Split(piece + cmd[ps..]))
    {
      var c := cmd[ps];
      pd, state := Copy(buf, pd, state, c, stack, piece);
      RestStep(piece, cmd, ps);
      if c == '/' {
        SlashStep(stack, piece, cmd[ps + 1..]);
        stack, piece := Apply(stack, piece), "";
      } else {
        piece := piece + [c];
      }
      ps := ps + 1;
    }
    assert piece + cmd[ps..] == piece;
    LastStep(stack, piece);
    buf[pd] := '\0';
    return Success(buf[1..pd]);
  }

  lemma CutToSlash(r: string, piece: string)
    requires r != "" && r[|r| - 1] == '/'
    ensures (r + piece)[..|r| - 1] + "/" == r && (r + piece)[..|r + piece|] + "/" == r + piece + "/"
  {
    assert (r + piece)[..|r|] == r;
  }

  /** What is kept of the text before a slash. */
  lemma TextBefore(stack: seq<string>, piece: string)
    requires Plain(piece) && piece != ".." && forall c <- stack :: Plain(c)
    ensures var was, cut := Render(stack) + piece, if piece == "" then 1 else if piece == "." then 2 else 0;
      was[..|was| - cut] + "/" == Render(Apply(stack, piece))
  {
    SlashText(stack, piece);
    hide Apply, Plain;
    CutToSlash(Render(stack), piece);
    hide Render;
  }

  lemma RestStep(piece: string, cmd: string, ps: nat)
    requires ps < |cmd|
    ensures cmd[ps] == '/' ==> piece + cmd[ps..] == piece + "/" + cmd[ps + 1..]
    ensures cmd[ps] != '/' ==> piece + cmd[ps..] == piece + [cmd[ps]] + cmd[ps + 1..]
    ensures "" + cmd[ps + 1..] == cmd[ps + 1..]
  {
    assert cmd[ps..] == [cmd[ps]] + cmd[ps + 1..];
  }

  lemma StartState()
    ensures StateOf("") == 1
  {}

  lemma PlainStep(piece: string, c: char)
    requires Plain(piece) && c != '\0'
    ensures Plain("") && (c != '/' ==> Plain(piece + [c]))
  {}

  /** How the state follows the component. */
  lemma StateStep(piece: string, c: char)
    ensures 0 <= StateOf(piece) <= 3
    ensures StateOf(piece) == 1 <==> piece == ""
    ensures StateOf(piece) == 2 <==> piece == "."
    ensures StateOf(piece) == 3 <==> piece == ".."
    ensures StateOf(piece + [c]) ==
      if piece == "" && c == '.' then 2 else if piece == "." && c == '.' then 3 else 0
  {
    var s := piece + [c];
    if |s| == 1 {
      assert s == "." <==> s[0] == '.';
    } else if |s| == 2 {
      assert s == ".." <==> s[0] == '.' && s[1] == '.';
      assert piece == "." <==> piece[0] == '.';
    }
  }

  lemma {:induction false} SplitPlain(s: string)
    requires CString(s)
    ensures forall c <- Split(s) :: CString(c)
    decreases |s|
  {
    var k := FirstSlash(s);
    if k < |s| {
      SplitPlain(s[k + 1..]);
    }
  }

  lemma PlainDirectories(cwd: string)
    requires CString(cwd) && (cwd == "" || cwd[0] == '/')
    ensures forall c <- Directories(cwd) :: Plain(c)
  {
    var s := WithSlash(cwd);
    SplitPlain(s);
    UnsplitSplit(s);
    forall c | c in Directories(cwd) ensures Plain(c) {
      assert c in Split(s);
    }
  }

  lemma LastStep(stack: seq<string>, piece: string)
    requires Plain(piece)
    ensures Resolve(stack, Split(piece)) == Render(stack) + piece
  {
    var k := FirstSlash(piece);
    assert Split(piece) == [piece];
  }

  /** What a slash after a component means. */
  lemma SlashStep(stack: seq<string>, piece: string, rest: string)
    requires Plain(piece) && forall c <- stack :: Plain(c)
    ensures Resolve(stack, Split(piece + "/" + rest)) == Resolve(Apply(stack, piece), Split(rest))
    ensures forall c <- Apply(stack, piece) :: Plain(c)
    ensures piece == "" || piece == "." ==> Apply(stack, piece) == stack
    ensures piece != "" && piece != "." && piece != ".." ==> Render(Apply(stack, piece)) == Render(stack) + piece + "/"
  {
    SlashText(stack, piece);
    SplitAt(piece, rest);
    assert ([piece] + Split(rest))[1..] == Split(rest);
  }

  lemma SlashText(stack: seq<string>, piece: string)
    requires Plain(piece) && forall c <- stack :: Plain(c)
    ensures piece == "" || piece == "." ==> Apply(stack, piece) == stack
    ensures piece != "" && piece != "." && piece != ".." ==> Render(Apply(stack, piece)) == Render(stack) + piece + "/"
  {
    assert (stack + [piece])[..|stack|] == stack;
  }

  /** Backs up over the last directory of the stack, but not over the root. */
  method StepBack(buf: array<char>, start: nat, ghost stack: seq<string>) returns (pd: nat)
    requires 1 < start <= buf.Length && buf[0] == '\0'
    requires buf[1..start] == Render(stack) + ".." && forall c <- stack :: Plain(c)
    ensures 1 <= pd < start && buf[1..pd] + "/" == Render(Apply(stack, ".."))
  {
    ghost var r, below := Render(stack), Below(stack);
    RenderTop(stack);
    hide Render, Apply, Plain, Below;
    TextStarts(buf, start, r, "..");
    hide Starts;
    pd := start - 4;
    TextAt(buf, r, pd);
    while buf[pd] != '/' && buf[pd] != '\0'
      invariant |below| <= pd < |r| && pd < buf.Length && (pd > 0 ==> buf[pd] == r[pd - 1])
      decreases pd
    {
      pd := pd - 1;
      TextAt(buf, r, pd);
    }
    if buf[pd] == '\0' {
      assert pd == 0;
      pd := pd + 1;
      assert buf[1..pd] + "/" == "/";
    } else {
      assert pd == |below|;
      TextTo(buf, r, pd);
    }
  }

  /** The buffer holds this text from its second character on. */
  predicate Starts(buf: array<char>, r: string)
    reads buf
  {
    |r| < buf.Length && buf[1..|r| + 1] == r
  }

  lemma TextStarts(buf: array<char>, start: nat, r: string, piece: string)
    requires 1 < start <= buf.Length && buf[1..start] == r + piece && piece != ""
    ensures Starts(buf, r) && start == |r| + |piece| + 1
  {
    assert buf[1..|r| + 1] == buf[1..start][..|r|] == r;
  }

  lemma TextAt(buf: array<char>, r: string, pd: nat)
    requires Starts(buf, r) && pd <= |r|
    ensures pd < buf.Length && (pd > 0 ==> buf[pd] == r[pd - 1])
  {
    assert pd > 0 ==> buf[pd] == buf[1..|r| + 1][pd - 1];
  }

  lemma TextTo(buf: array<char>, r: string, pd: nat)
    requires Starts(buf, r) && 0 < pd <= |r| && r[pd - 1] == '/'
    ensures pd < buf.Length && buf[1..pd] + "/" == r[..pd]
  {
    assert buf[1..pd] == buf[1..|r| + 1][..pd - 1] == r[..pd - 1];
  }

  function Below(stack: seq<string>): string {
    if stack == [] then "" else Render(stack[..|stack| - 1])
  }

  /** Between the directory below and the last slash lies one component, or the stack is the root alone. */
  lemma RenderTop(stack: seq<string>)
    requires forall c <- stack :: Plain(c)
    ensures var r, below := Render(stack), Below(stack);
      && |below| < |r| && below <= r
      && (forall i :: |below| <= i < |r| - 1 ==> r[i] != '/' && r[i] != '\0')
      && (if stack == [] then r == "/" && below == "" else below != "" && r[|below| - 1] == '/')
      && Render(Apply(stack, "..")) == if stack == [] then "/" else below
  {
    if stack != [] {
      var c := stack[|stack| - 1];
      assert c in stack && Plain(c);
      assert Render(stack) == Below(stack) + c + "/";
    }
  }

  // ---------------------------------------------------------------- what comes out

  predicate Clean(c: string) {
    NoSlash(c) && c != "" && c != "." && c != ".."
  }

  /** The directories that are left, and the last component. */
  function Resolved(stack: seq<string>, cs: seq<string>): (r: (seq<string>, string))
    requires cs != []
    decreases |cs|
    ensures Resolve(stack, cs) == Render(r.0) + r.1
  {
    if |cs| == 1 then (stack, cs[0]) else Resolved(Apply(stack, cs[0]), cs[1..])
  }

  /** No empty, `.` or `..` directory is left when the base has none. */
  lemma {:induction false} ResolvedIsClean(stack: seq<string>, cs: seq<string>)
    requires cs != [] && (forall c <- cs :: NoSlash(c)) && forall c <- stack :: Clean(c)
    ensures var r := Resolved(stack, cs); NoSlash(r.1) && forall c <- r.0 :: Clean(c)
    decreases |cs|
  {
    if |cs| > 1 {
      assert cs[0] in cs;
      ResolvedIsClean(Apply(stack, cs[0]), cs[1..]);
    }
  }

  lemma {:induction false} ResolveClean(done: seq<string>, more: seq<string>, last: string)
    requires forall c <- more :: Clean(c)
    ensures Resolve(done, more + [last]) == Render(done + more) + last
    decreases |more|
  {
    if more == [] {
      assert done + more == done && more + [last] == [last];
    } else {
      assert more[0] in more;
      ResolveClean(done + [more[0]], more[1..], last);
      assert (more + [last])[1..] == more[1..] + [last];
      assert done + [more[0]] + more[1..] == done + more;
    }
  }

  /** Anywhere in a path a name and `..` cancel. */
  lemma {:induction false} ResolveCancels(stack: seq<string>, before: seq<string>, name: string, rest: seq<string>)
    requires Clean(name) && rest != []
    ensures Resolve(stack, before + [name, ".."] + rest) == Resolve(stack, before + rest)
    decreases |before|
  {
    hide Resolve;
    if before == [] {
      assert before + [name, ".."] + rest == [name] + ([".."] + rest) && before + rest == rest;
      Unroll(stack, name, [".."] + rest);
      Unroll(stack + [name], "..", rest);
      assert (stack + [name])[..|stack|] == stack;
    } else {
      var c, more := before[0], before[1..];
      ResolveCancels(Apply(stack, c), more, name, rest);
      hide Apply;
      Unroll(stack, c, more + [name, ".."] + rest);
      Unroll(stack, c, more + rest);
      assert before + [name, ".."] + rest == [c] + (more + [name, ".."] + rest);
      assert before + rest == [c] + (more + rest);
    }
  }

  /** Empty components and `.` are no matter. */
  lemma {:induction false} ResolveIgnores(stack: seq<string>, before: seq<string>, none: string, rest: seq<string>)
    requires (none == "" || none == ".") && rest != []
    ensures Resolve(stack, before + [none] + rest) == Resolve(stack, before + rest)
    decreases |before|
  {
    hide Resolve;
    if before == [] {
      assert before + [none] + rest == [none] + rest && before + rest == rest;
      Unroll(stack, none, rest);
    } else {
      var c, more := before[0], before[1..];
      ResolveIgnores(Apply(stack, c), more, none, rest);
      hide Apply;
      Unroll(stack, c, more + [none] + rest);
      Unroll(stack, c, more + rest);
      assert before + [none] + rest == [c] + (more + [none] + rest);
      assert before + rest == [c] + (more + rest);
    }
  }

  lemma Unroll(stack: seq<string>, c: string, rest: seq<string>)
    requires rest != []
    ensures Resolve(stack, [c] + rest) == Resolve(Apply(stack, c), rest)
  {
    assert ([c] + rest)[1..] == rest;
  }

  /** Above the root there is nothing: `..` stays there. */
  lemma AboveRoot(rest: seq<string>)
    requires rest != []
    ensures Resolve([], [".."] + rest) == Resolve([], rest)
  {
    Unroll([], "..", rest);
  }

  /** What comes out is absolute, and putting it in again changes nothing. */
  lemma NormaliseTwice(stack: seq<string>, cmd: string)
    requires forall c <- stack :: Clean(c)
    ensures var out := Resolve(stack, Split(cmd)); "/" <= out && Resolve([], Split(out)) == out
  {
    hide Split, Unsplit, Resolve, Render;
    UnsplitSplit(cmd);
    ResolvedIsClean(stack, Split(cmd));
    var r := Resolved(stack, Split(cmd));
    var cs := [""] + r.0 + [r.1];
    RenderIsUnsplit(r.0, r.1);
    SplitUnsplit(cs);
    ResolveEmpty(cs);
    assert cs[1..] == r.0 + [r.1];
    ResolveClean([], r.0, r.1);
    assert [] + r.0 == r.0;
  }

  lemma ResolveEmpty(cs: seq<string>)
    requires |cs| > 1 && cs[0] == ""
    ensures Resolve([], cs) == Resolve([], cs[1..])
  {}
}
