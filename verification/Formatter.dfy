/**
 The output side of `code_formatter`: an indenting, newline-fixing append over a list of chunks.
 */
module Formatter {
  import opened Wrappers
  import opened Scanner

  const INDENT_SPACES := 4

  // ----- Lines -----

  function LineLength(s: string): (n: nat)
    ensures n <= |s|
    ensures forall i :: 0 <= i < n ==> !IsBreak(s[i])
    ensures n < |s| ==> IsBreak(s[n])
  {
    if s == "" || IsBreak(s[0]) then 0 else 1 + LineLength(s[1..])
  }

  /** `s.splitlines()`: a carriage return and a line feed together are one break. */
  function SplitLines(s: string): seq<string>
    decreases |s|
  {
    if s == "" then []
    else
      var n := LineLength(s);
      if n == |s| then [s]
      else [s[..n]] + SplitLines(s[(if s[n] == '\r' && n + 1 < |s| && s[n + 1] == '\n' then n + 2 else n + 1)..])
  }

  ghost predicate OneLine(s: string) {
    forall i :: 0 <= i < |s| ==> !IsBreak(s[i])
  }

  ghost predicate OneLiners(lines: seq<string>) {
    forall i :: 0 <= i < |lines| ==> OneLine(lines[i])
  }

  // ----- The chunks an append adds -----

  function Spaces(level: int): (s: string)
    ensures |s| == if level > 0 then level else 0
    ensures forall i :: 0 <= i < |s| ==> s[i] == ' '
  {
    seq(if level > 0 then level else 0, _ => ' ')
  }

  /** A blank first line is dropped when a line has just been ended. */
  function Emit(level: int, line: string, initial: bool): seq<string> {
    (if line != "" then (if level != 0 then [Spaces(level)] else []) + [line] else [])
    + (if line != "" || !initial then ["\n"] else [])
  }

  function EmitAll(level: int, lines: seq<string>, initial: bool): seq<string> {
    if lines == [] then [] else Emit(level, lines[0], initial) + EmitAll(level, lines[1..], false)
  }

  function Initial(data: seq<string>): bool {
    data == [] || data[|data| - 1] == "\n"
  }

  function Concat(data: seq<string>): string {
    if data == [] then "" else data[0] + Concat(data[1..])
  }

  // ----- The formatter's operations on its state -----

  datatype State = State(data: seq<string>, level: int, fix: bool) {
    function Text(): string { Concat(data) }
  }

  function Append(s: State, text: string): State {
    if s.fix then s.(data := s.data + EmitAll(s.level, SplitLines(text), Initial(s.data)))
    else s.(data := s.data + [text])
  }

  datatype Op = Indent(count: int) | Dedent(count: int) | Write(text: string) | Newline | Str

  /** One call; None where the source's assertion fails. */
  function Step(s: State, op: Op): Option<State> {
    match op
    case Indent(k) => Some(s.(level := s.level + INDENT_SPACES * k))
    case Dedent(k) => if s.level >= INDENT_SPACES * k then Some(s.(level := s.level - INDENT_SPACES * k)) else None
    case Write(text) => Some(Append(s, text))
    case Newline => Some(s.(data := s.data + ["\n"]))
    case Str => Some(s.(data := [s.Text()]))
  }

  function Run(s: State, ops: seq<Op>): Option<State>
    decreases |ops|
  {
    if ops == [] then Some(s)
    else
      var t := Step(s, ops[0]);
      if t == None then None else Run(t.value, ops[1..])
  }

  class CodeFormatter {
    var data: seq<string>
    var indentLevel: int
    var fixNewlines: bool

    function Now(): State
      reads this
    {
      State(data, indentLevel, fixNewlines)
    }

    constructor (fixNewlines: bool)
      ensures Now() == State([], 0, fixNewlines)
    {
      data, indentLevel, this.fixNewlines := [], 0, fixNewlines;
    }

    method DoIndent(count: int)
      modifies this`indentLevel
      ensures Some(Now()) == Step(old(Now()), Indent(count)) && indentLevel == old(indentLevel) + 4 * count
    {
      indentLevel := indentLevel + INDENT_SPACES * count;
    }

    method DoDedent(count: int) returns (ok: bool)
      modifies this`indentLevel
      ensures ok <==> Step(old(Now()), Dedent(count)).Some?
      ensures ok <==> old(indentLevel) >= 4 * count
      ensures ok ==> indentLevel == old(indentLevel) - 4 * count
      ensures Now() == if ok then Step(old(Now()), Dedent(count)).value else old(Now())
    {
      ok := indentLevel >= INDENT_SPACES * count;
      if ok {
        indentLevel := indentLevel - INDENT_SPACES * count;
      }
    }

    /** One line of an append. */
    method EmitLine(line: string, initialNewline: bool)
      modifies this`data
      ensures data == old(data) + Emit(indentLevel, line, initialNewline)
    {
      if line != "" {
        if indentLevel != 0 {
          data := data + [Spaces(indentLevel)];
        }
        data := data + [line];
      }
      if line != "" || !initialNewline {
        data := data + ["\n"];
      }
    }

    method DoAppend(text: string)
      modifies this`data
      ensures Now() == Append(old(Now()), text)
    {
      hide SplitLines, Emit;
      if !fixNewlines {
        data := data + [text];
        return;
      }
      var initialNewline := data == [] || data[|data| - 1] == "\n";
      var lines := SplitLines(text);
      var i := 0;
      ghost var goal := data + EmitAll(indentLevel, lines, initialNewline);
      assert lines[0..] == lines;
      while i < |lines|
        invariant 0 <= i <= |lines|
        invariant data + EmitAll(indentLevel, lines[i..], initialNewline) == goal
      {
        EmitNext(indentLevel, lines, i, initialNewline);
        EmitLine(lines[i], initialNewline);
        initialNewline := false;
        i := i + 1;
      }
      assert data + [] == data;
    }

    method DoStr() returns (text: string)
      modifies this`data
      ensures text == old(Now()).Text() && Some(Now()) == Step(old(Now()), Str) && Now().Text() == text
    {
      ConcatOne(Concat(data));
      text := Concat(data);
      data := [text];
    }

    method DoNewline()
      modifies this`data
      ensures Some(Now()) == Step(old(Now()), Newline) && Now().Text() == old(Now()).Text() + "\n"
    {
      ConcatAppend(data, ["\n"]);
      ConcatOne("\n");
      data := data + ["\n"];
    }

    /** `__call__` with a template: fills it in and appends the result; an exception changes nothing. */
    method Call(env: Env, template: string) returns (ok: bool)
      modifies this`data
      ensures ok <==> Format(env, template).Some?
      ensures Now() == if ok then Append(old(Now()), Format(env, template).value) else old(Now())
    {
      var d := Format(env, template);
      ok := d.Some?;
      if ok {
        DoAppend(d.value);
      }
    }
  }

  // ----- Runs -----

  lemma {:induction false} ConcatAppend(a: seq<string>, b: seq<string>)
    ensures Concat(a + b) == Concat(a) + Concat(b)
  {
    if a == [] {
      assert a + b == b;
    } else {
      assert (a + b)[1..] == a[1..] + b;
      ConcatAppend(a[1..], b);
    }
  }

  lemma EmitNext(level: int, lines: seq<string>, i: nat, initial: bool)
    requires i < |lines|
    ensures EmitAll(level, lines[i..], initial) ==
            Emit(level, lines[i], initial) + EmitAll(level, lines[i + 1..], false)
  {
    assert lines[i..][1..] == lines[i + 1..];
  }

  lemma ConcatOne(t: string)
    ensures Concat([t]) == t
  {
    assert [t][1..] == [] && t + "" == t;
  }

  lemma {:induction false} EmitEnds(level: int, lines: seq<string>, initial: bool)
    ensures var e := EmitAll(level, lines, initial); e == [] || e[|e| - 1] == "\n"
  {
    if lines != [] {
      EmitEnds(level, lines[1..], false);
    }
  }

  lemma ConcatEnds(data: seq<string>)
    requires data != [] && data[|data| - 1] == "\n"
    ensures Concat(data) != "" && Concat(data)[|Concat(data)| - 1] == '\n'
  {
    var last := data[|data| - 1];
    assert data == data[..|data| - 1] + [last];
    ConcatAppend(data[..|data| - 1], [last]);
    assert [last][1..] == [];
  }

  ghost predicate EndsLine(text: string) {
    text == "" || text[|text| - 1] == '\n'
  }

  /** What holds between the calls of any run that leaves newline fixing on. */
  ghost predicate Tidy(s: State) {
    s.fix && EndsLine(s.Text()) && s.level >= 0 && s.level % INDENT_SPACES == 0
  }

  /** Every call keeps it, except an indentation by so negative a count that no dedent would allow it. */
  lemma StepTidy(s: State, op: Op)
    requires Tidy(s) && Step(s, op).Some?
    ensures Tidy(Step(s, op).value) <==> !(op.Indent? && s.level + INDENT_SPACES * op.count < 0)
  {
    hide SplitLines, EmitAll, Concat, Initial;
    match op
    case Indent(k) =>
    case Dedent(k) =>
    case Write(text) =>
      var e := EmitAll(s.level, SplitLines(text), Initial(s.data));
      EmitEnds(s.level, SplitLines(text), Initial(s.data));
      GrowTidy(s, e);
    case Newline =>
      GrowTidy(s, ["\n"]);
    case Str =>
      ConcatOne(s.Text());
  }

  lemma GrowTidy(s: State, e: seq<string>)
    requires Tidy(s) && (e == [] || e[|e| - 1] == "\n")
    ensures Tidy(s.(data := s.data + e))
  {
    hide Concat;
    if e == [] {
      assert s.data + e == s.data;
    } else {
      var all := s.data + e;
      assert all[|all| - 1] == e[|e| - 1];
      ConcatEnds(all);
    }
  }

  lemma {:induction false} RunTidy(s: State, ops: seq<Op>)
    requires Tidy(s) && Run(s, ops).Some? && forall op :: op in ops && op.Indent? ==> op.count >= 0
    ensures Tidy(Run(s, ops).value)
    decreases |ops|
  {
    if ops != [] {
      assert ops[0] in ops;
      hide Tidy, Step;
      StepTidy(s, ops[0]);
      RunTidy(Step(s, ops[0]).value, ops[1..]);
    }
  }

  // ----- What an append adds, read back -----

  function Kept(lines: seq<string>, initial: bool): seq<string> {
    if lines != [] && lines[0] == "" && initial then lines[1..] else lines
  }

  function Indented(level: int, line: string): string {
    if line == "" then "" else Spaces(level) + line
  }

  function Joined(level: int, lines: seq<string>): string {
    if lines == [] then "" else Indented(level, lines[0]) + "\n" + Joined(level, lines[1..])
  }

  lemma EmitText(level: int, line: string, initial: bool)
    ensures Concat(Emit(level, line, initial)) ==
            if line == "" && initial then "" else Indented(level, line) + "\n"
  {
    ConcatOne("\n");
    ConcatOne(line);
    ConcatOne(Spaces(level));
    if line != "" {
      ConcatAppend([Spaces(level)], [line]);
      var body := if level != 0 then [Spaces(level)] + [line] else [line];
      assert level == 0 ==> Spaces(level) + line == line;
      ConcatAppend(body, ["\n"]);
    } else if !initial {
      assert [] + ["\n"] == ["\n"];
    }
  }

  lemma {:induction false} EmittedText(level: int, lines: seq<string>, initial: bool)
    ensures Concat(EmitAll(level, lines, initial)) == Joined(level, Kept(lines, initial))
    decreases |lines|
  {
    if lines != [] {
      hide Emit, Indented;
      EmittedText(level, lines[1..], false);
      ConcatAppend(Emit(level, lines[0], initial), EmitAll(level, lines[1..], false));
      EmitText(level, lines[0], initial);
    }
  }

  lemma {:induction false} LineLengthOf(x: string, rest: string)
    requires OneLine(x) && rest != "" && IsBreak(rest[0])
    ensures LineLength(x + rest) == |x|
  {
    if x == "" {
      assert x + rest == rest;
    } else {
      assert (x + rest)[1..] == x[1..] + rest;
      LineLengthOf(x[1..], rest);
    }
  }

  lemma SplitFirst(x: string, rest: string)
    requires OneLine(x)
    ensures SplitLines(x + "\n" + rest) == [x] + SplitLines(rest)
  {
    var s := x + "\n" + rest;
    assert s == x + ("\n" + rest);
    LineLengthOf(x, "\n" + rest);
    assert s[|x|] == '\n' && s[..|x|] == x && s[|x| + 1..] == rest;
  }

  const BREAKS := "\n\U{0B}\U{0C}\r\U{1C}\U{1D}\U{1E}\U{85}\U{2028}\U{2029}"

  /** Every break ends a line, a carriage return and a line feed together one. */
  lemma SplitAtBreak(x: string, brk: string, rest: string)
    requires (forall c :: c in x ==> c !in BREAKS) && (brk == "\r\n" || (|brk| == 1 && brk[0] in BREAKS))
    requires brk == "\r" && rest != "" ==> rest[0] != '\n'
    ensures SplitLines(x + brk + rest) == [x] + SplitLines(rest)
  {
    hide SplitLines;
    forall i | 0 <= i < |x| ensures !IsBreak(x[i]) {
      BreaksAre(x[i]);
    }
    BreaksAre(brk[0]);
    SplitBroken(x, brk, rest);
  }

  lemma SplitStep(s: string)
    requires LineLength(s) < |s|
    ensures var n := LineLength(s);
            SplitLines(s) == [s[..n]] + SplitLines(s[(if s[n] == '\r' && n + 1 < |s| && s[n + 1] == '\n' then n + 2 else n + 1)..])
  {
    hide LineLength;
  }

  lemma CutAt(x: string, brk: string, rest: string)
    requires brk != ""
    ensures var s := x + brk + rest;
            && s == x + (brk + rest) && s[..|x|] == x && s[|x|] == brk[0] && s[|x| + |brk|..] == rest
            && (|brk| == 2 ==> s[|x| + 1] == brk[1]) && (|brk| == 1 && rest != "" ==> s[|x| + 1] == rest[0])
  {
  }

  lemma SplitBroken(x: string, brk: string, rest: string)
    requires OneLine(x) && (brk == "\r\n" || (|brk| == 1 && IsBreak(brk[0])))
    requires brk == "\r" && rest != "" ==> rest[0] != '\n'
    ensures SplitLines(x + brk + rest) == [x] + SplitLines(rest)
  {
    hide SplitLines, LineLength;
    var s := x + brk + rest;
    LineLengthOf(x, brk + rest);
    hide IsBreak, OneLine;
    CutAt(x, brk, rest);
    SplitStep(s);
  }

  lemma BreaksAre(c: char)
    ensures IsBreak(c) <==> c in BREAKS
  {
  }

  lemma {:induction false} SplitOneLiners(s: string)
    ensures OneLiners(SplitLines(s))
    decreases |s|
  {
    if s != "" {
      var n := LineLength(s);
      if n < |s| {
        SplitOneLiners(s[(if s[n] == '\r' && n + 1 < |s| && s[n + 1] == '\n' then n + 2 else n + 1)..]);
      }
    }
  }

  function Strip(level: nat, line: string): string {
    if |line| >= level then line[level..] else ""
  }

  function StripAll(level: nat, lines: seq<string>): seq<string> {
    if lines == [] then [] else [Strip(level, lines[0])] + StripAll(level, lines[1..])
  }

  lemma {:induction false} SplitJoined(level: nat, lines: seq<string>)
    requires OneLiners(lines)
    ensures StripAll(level, SplitLines(Joined(level, lines))) == lines
    decreases |lines|
  {
    if lines != [] {
      var x := Indented(level, lines[0]);
      assert OneLine(lines[0]);
      assert OneLine(x);
      SplitJoined(level, lines[1..]);
      SplitFirst(x, Joined(level, lines[1..]));
      hide SplitLines;
      var ls := SplitLines(Joined(level, lines));
      assert ls[0] == x && ls[1..] == SplitLines(Joined(level, lines[1..]));
      assert Strip(level, x) == lines[0];
    }
  }

  /**
   An append adds its lines, indented, and nothing else: with the indentation removed they are the lines
   given, less a blank first line directly behind the end of a line.
   */
  lemma AppendRoundTrip(s: State, text: string)
    requires s.fix && s.level >= 0
    ensures var added := Joined(s.level, Kept(SplitLines(text), Initial(s.data)));
            && Append(s, text).Text() == s.Text() + added
            && StripAll(s.level, SplitLines(added)) == Kept(SplitLines(text), Initial(s.data))
  {
    var lines := SplitLines(text);
    SplitOneLiners(text);
    ConcatAppend(s.data, EmitAll(s.level, lines, Initial(s.data)));
    EmittedText(s.level, lines, Initial(s.data));
    SplitJoined(s.level, Kept(lines, Initial(s.data)));
  }

  // ----- Taking the text in between -----

  /** States no later call can tell apart. */
  ghost predicate Alike(s: State, t: State) {
    s.Text() == t.Text() && s.level == t.level && s.fix == t.fix && Initial(s.data) == Initial(t.data)
  }

  lemma InitialAfter(data: seq<string>, e: seq<string>)
    requires e != [] && e[|e| - 1] == "\n"
    ensures Initial(data + e)
  {
    assert (data + e)[|data + e| - 1] == e[|e| - 1];
  }

  lemma AlikeMeans(s: State, t: State)
    requires Alike(s, t)
    ensures s.Text() == t.Text() && s.level == t.level && s.fix == t.fix && Initial(s.data) == Initial(t.data)
    ensures forall k :: Alike(s.(level := k), t.(level := k))
    ensures Alike(s.(data := [s.Text()]), t.(data := [t.Text()]))
  {
  }

  lemma GrowAlike(s: State, t: State, e: seq<string>)
    requires Alike(s, t)
    ensures Alike(s.(data := s.data + e), t.(data := t.data + e))
  {
    hide Concat;
    ConcatAppend(s.data, e);
    ConcatAppend(t.data, e);
    if e == [] {
      assert s.data + e == s.data && t.data + e == t.data;
    } else {
      assert (s.data + e)[|s.data + e| - 1] == e[|e| - 1] == (t.data + e)[|t.data + e| - 1];
    }
  }

  lemma StepAlike(s: State, t: State, op: Op)
    requires Alike(s, t)
    ensures Step(s, op).Some? <==> Step(t, op).Some?
    ensures Step(s, op).Some? ==> Alike(Step(s, op).value, Step(t, op).value)
  {
    hide Alike, EmitAll, SplitLines, Concat;
    AlikeMeans(s, t);
    match op
    case Indent(k) =>
    case Dedent(k) =>
    case Write(text) =>
      GrowAlike(s, t, if s.fix then EmitAll(s.level, SplitLines(text), Initial(s.data)) else [text]);
    case Newline =>
      GrowAlike(s, t, ["\n"]);
    case Str =>
  }

  lemma {:induction false} RunAlike(s: State, t: State, ops: seq<Op>)
    requires Alike(s, t)
    ensures Run(s, ops).Some? <==> Run(t, ops).Some?
    ensures Run(s, ops).Some? ==> Alike(Run(s, ops).value, Run(t, ops).value)
    decreases |ops|
  {
    if ops != [] {
      hide Alike, Step;
      StepAlike(s, t, ops[0]);
      if Step(s, ops[0]).Some? {
        RunAlike(Step(s, ops[0]).value, Step(t, ops[0]).value, ops[1..]);
      }
    }
  }

  function Stringed(s: State): State { s.(data := [s.Text()]) }

  /** Taking the text first changes the next append exactly when it opens with a blank line it would have dropped. */
  lemma StrBeforeAppend(s: State, text: string)
    requires s.fix
    ensures Append(Stringed(s), text).Text() == Append(s, text).Text() <==>
            !(SplitLines(text) != [] && SplitLines(text)[0] == "" && Initial(s.data) != (s.Text() == "\n"))
  {
    var lines := SplitLines(text);
    hide SplitLines;
    var t := Stringed(s);
    ConcatOne(s.Text());
    ConcatAppend(s.data, EmitAll(s.level, lines, Initial(s.data)));
    ConcatAppend(t.data, EmitAll(s.level, lines, Initial(t.data)));
    EmittedText(s.level, lines, Initial(s.data));
    EmittedText(s.level, lines, Initial(t.data));
    hide Concat, EmitAll;
    if lines != [] && lines[0] == "" {
      assert Joined(s.level, lines) == "\n" + Joined(s.level, lines[1..]);
    }
  }

  /** So behind an append that opens with text, no later call can tell that the text was taken. */
  lemma StrAlike(s: State, text: string)
    requires s.fix && SplitLines(text) != [] && SplitLines(text)[0] != ""
    ensures Alike(Append(s, text), Append(Stringed(s), text))
  {
    StrBeforeAppend(s, text);
    var lines := SplitLines(text);
    hide SplitLines;
    EmitEnds(s.level, lines, Initial(s.data));
    EmitEnds(s.level, lines, Initial(Stringed(s).data));
    InitialAfter(s.data, EmitAll(s.level, lines, Initial(s.data)));
    InitialAfter(Stringed(s).data, EmitAll(s.level, lines, Initial(Stringed(s).data)));
  }

  lemma StrUnnoticed(s: State, text: string, ops: seq<Op>)
    requires s.fix && SplitLines(text) != [] && SplitLines(text)[0] != ""
    ensures var r, r' := Run(s, [Write(text)] + ops), Run(s, [Str, Write(text)] + ops);
            (r.Some? <==> r'.Some?) && (r.Some? ==> r.value.Text() == r'.value.Text())
  {
    hide SplitLines, Append;
    var a, b := Append(s, text), Append(Stringed(s), text);
    StrAlike(s, text);
    RunAlike(a, b, ops);
    assert ([Write(text)] + ops)[1..] == ops;
    var ops' := [Str, Write(text)] + ops;
    assert ops'[1..] == [Write(text)] + ops;
  }

  /** A fresh formatter drops a blank line; once its empty text has been taken it does not. */
  lemma StrNoticed()
    ensures var empty := State([], 0, true);
            && Run(empty, [Write("\n")]).Some? && Run(empty, [Str, Write("\n")]).Some?
            && Run(empty, [Write("\n")]).value.Text() != Run(empty, [Str, Write("\n")]).value.Text()
  {
    var empty, nl := State([], 0, true), "\n";
    assert SplitLines(nl) == [""] by {
      assert LineLength(nl) == 0 && nl[..0] == "" && nl[1..] == "";
    }
    StrBeforeAppend(empty, nl);
    hide SplitLines, EmitAll, Append;
    var ops, ops' := [Write(nl)], [Str, Write(nl)];
    assert ops[1..] == [] && ops'[1..] == ops;
    assert Step(empty, Str).value == Stringed(empty);
    assert Run(empty, ops') == Run(Stringed(empty), ops);
    assert Run(Append(empty, nl), []) == Some(Append(empty, nl));
    assert Run(Append(Stringed(empty), nl), []) == Some(Append(Stringed(empty), nl));
  }
}
