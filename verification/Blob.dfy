/** `bytesToCppArray`: a byte string written as a C++ array through a code formatter. */
module Blob {
  import opened Wrappers
  import opened Decimal
  import opened Scanner
  import opened Formatter

  type Byte = b: nat | b < 256

  const STEP: nat := 16

  /** Each byte in decimal, followed by a comma. */
  function ByteList(bytes: seq<Byte>): string {
    if bytes == [] then "" else Digits(bytes[0]) + "," + ByteList(bytes[1..])
  }

  function ChunkEnd(bytes: seq<Byte>): (n: nat)
    ensures n <= |bytes| && (bytes != [] ==> n > 0)
  {
    if |bytes| < STEP then |bytes| else STEP
  }

  /** The lines between the braces. */
  function Body(bytes: seq<Byte>): seq<string>
    decreases |bytes|
  {
    if bytes == [] then [] else [ByteList(FirstBytes(bytes))] + Body(bytes[ChunkEnd(bytes)..])
  }

  const OPENING := "const std::uint8_t "
  const CLOSING := "[] = {"

  /** The template of the first line, "const std::uint8_t ${symbol}[] = {". */
  const HEADER_TEMPLATE := OPENING + ("${" + "symbol" + "}" + CLOSING)

  function Header(symbol: string): string { OPENING + (symbol + CLOSING) }

  /** Lines as they are appended one by one; without newline fixing they run together. */
  function Put(fix: bool, level: int, lines: seq<string>): string {
    if fix then Joined(level, lines) else Concat(lines)
  }

  function PutText(fix: bool, level: int, text: string): string {
    if fix then Joined(level, SplitLines(text)) else text
  }

  /** What the array declaration adds to the output. */
  function Declaration(fix: bool, level: int, symbol: string, bytes: seq<Byte>): string {
    PutText(fix, level, Header(symbol)) + Put(fix, level + INDENT_SPACES, Body(bytes)) + PutText(fix, level, "};")
  }

  method BytesToCppArray(code: CodeFormatter, env: Env, symbol: string, bytes: seq<Byte>) returns (ok: bool)
    requires env.lookup("symbol") == Some(symbol) && code.indentLevel >= 0
    modifies code
    ensures ok
    ensures code.indentLevel == old(code.indentLevel) && code.fixNewlines == old(code.fixNewlines)
    ensures code.Now().Text() ==
            old(code.Now().Text()) + Declaration(code.fixNewlines, code.indentLevel, symbol, bytes)
  {
    hide Append, Format, Put, PutText, Body, Concat;
    ghost var level, fix, text := code.indentLevel, code.fixNewlines, code.Now().Text();
    HeaderAppended(env, symbol, code.Now());
    ok := code.Call(env, HEADER_TEMPLATE);
    code.DoIndent(1);
    ghost var start := code.Now().Text();
    var i := 0;
    BodyEmpty(fix, level + INDENT_SPACES);
    assert bytes[0..] == bytes;
    ghost var body := Put(fix, level + INDENT_SPACES, Body(bytes));
    while i < |bytes|
      invariant 0 <= i <= |bytes| && ok && code.fixNewlines == fix && code.indentLevel == level + INDENT_SPACES
      invariant code.Now().Text() + Put(fix, level + INDENT_SPACES, Body(bytes[i..])) == start + body
    {
      var end := if i + STEP < |bytes| then i + STEP else |bytes|;
      var line := ByteList(bytes[i..end]);
      ChunkAppended(env, code.Now(), bytes, i, end);
      ok := code.Call(env, line);
      i := end;
    }
    assert bytes[i..] == [];
    ok := code.DoDedent(1);
    assert code.Now().Text() + "" == start + body;
    FooterAppended(env, code.Now());
    ok := code.Call(env, "};");
    ghost var h, f := PutText(fix, level, Header(symbol)), PutText(fix, level, "};");
    assert text + h + body + f == text + (h + body + f);
  }

  lemma BodyEmpty(fix: bool, level: int)
    ensures Put(fix, level, Body([])) == ""
  {
  }

  // ----- The three kinds of lines -----

  /** Text without a dollar is its own template. */
  lemma {:induction false} NoDollar(t: string)
    requires '$' !in t
    ensures Escape(t) == t
  {
    if t != "" {
      NoDollar(t[1..]);
      assert t == [t[0]] + t[1..];
    }
  }

  lemma PlainFormat(env: Env, t: string)
    requires '$' !in t
    ensures Format(env, t) == Some(t)
  {
    NoDollar(t);
    EscapeRoundTrip(env, t);
  }

  lemma HeaderFormat(env: Env, symbol: string)
    requires env.lookup("symbol") == Some(symbol)
    ensures Format(env, HEADER_TEMPLATE) == Some(Header(symbol))
  {
    HeaderParts(OPENING, "symbol", CLOSING);
    SpliceFormat(env, OPENING, "symbol", CLOSING, symbol);
  }

  lemma HeaderParts(a: string, name: string, c: string)
    requires a == OPENING && name == "symbol" && c == CLOSING
    ensures '$' !in a && '$' !in c && IsIdent(name)
  {
  }

  /** A braced name between two texts without dollars. */
  lemma SpliceFormat(env: Env, a: string, name: string, c: string, v: string)
    requires '$' !in a && '$' !in c && IsIdent(name) && env.lookup(name) == Some(v)
    ensures Format(env, a + ("${" + name + "}" + c)) == Some(a + (v + c))
  {
    var ga, gb, gc := Text(a), Var(name), Text(c);
    NoDollar(a);
    NoDollar(c);
    hide Scan, IsIdent, Escape;
    ThreeSegments(env, ga, gb, gc);
    BracedWellPut([ga, gb, gc], LineStart);
    FormatSegments(env, [ga, gb, gc], LineStart);
  }

  lemma ThreeSegments(env: Env, a: Segment, b: Segment, c: Segment)
    ensures Sources([a, b, c]) == Source(a) + (Source(b) + Source(c))
    ensures Value(env, a).Some? && Value(env, b).Some? && Value(env, c).Some? ==>
              Values(env, [a, b, c]) ==
              Some(Value(env, a).value + (Value(env, b).value + Value(env, c).value))
  {
    hide Source, Value;
    var g1, g2 := [b, c], [c];
    assert [a, b, c][1..] == g1 && g1[1..] == g2 && g2[1..] == [];
    assert Sources(g2) == Source(c) + "" == Source(c);
    assert Sources(g1) == Source(b) + Source(c);
    if Value(env, a).Some? && Value(env, b).Some? && Value(env, c).Some? {
      assert Values(env, g2) == Some(Value(env, c).value + "");
      assert Value(env, c).value + "" == Value(env, c).value;
      assert Values(env, g1) == Some(Value(env, b).value + Value(env, c).value);
    }
  }

  lemma TextAppended(s: State, t: string)
    requires s.level >= 0 && t != "" && !IsBreak(t[0])
    ensures Append(s, t).Text() == s.Text() + PutText(s.fix, s.level, t)
    ensures Append(s, t).level == s.level && Append(s, t).fix == s.fix
  {
    if s.fix {
      AppendRoundTrip(s, t);
      assert SplitLines(t)[0] != "";
    } else {
      ConcatAppend(s.data, [t]);
      ConcatOne(t);
    }
  }

  lemma HeaderAppended(env: Env, symbol: string, s: State)
    requires env.lookup("symbol") == Some(symbol) && s.level >= 0
    ensures Format(env, HEADER_TEMPLATE) == Some(Header(symbol))
    ensures var t := Append(s, Header(symbol));
            t.Text() == s.Text() + PutText(s.fix, s.level, Header(symbol)) && t.level == s.level && t.fix == s.fix
  {
    HeaderFormat(env, symbol);
    TextAppended(s, Header(symbol));
  }

  lemma {:induction false} ByteChars(bytes: seq<Byte>)
    ensures forall i :: 0 <= i < |ByteList(bytes)| ==> IsDigit(ByteList(bytes)[i]) || ByteList(bytes)[i] == ','
    ensures bytes != [] ==> ByteList(bytes) != ""
  {
    if bytes != [] {
      ByteChars(bytes[1..]);
    }
  }

  lemma OneLineSplit(t: string)
    requires t != "" && OneLine(t)
    ensures SplitLines(t) == [t]
  {
  }

  lemma LineAppended(env: Env, s: State, bytes: seq<Byte>)
    requires s.level >= 0 && bytes != []
    ensures var line := ByteList(bytes); var t := Append(s, line);
            && Format(env, line) == Some(line) && t.level == s.level && t.fix == s.fix
            && t.Text() == s.Text() + Put(s.fix, s.level, [line])
  {
    hide Append, Format, SplitLines, ByteList, Joined, State.Text;
    var line := ByteList(bytes);
    ByteChars(bytes);
    PlainFormat(env, line);
    TextAppended(s, line);
    OneLineSplit(line);
    ConcatOne(line);
  }

  lemma ChunkAppended(env: Env, s: State, bytes: seq<Byte>, i: nat, end: nat)
    requires s.level >= 0
    requires i < |bytes| && end == if i + STEP < |bytes| then i + STEP else |bytes|
    ensures var line := ByteList(bytes[i..end]); var t := Append(s, line);
            && Format(env, line) == Some(line) && t.level == s.level && t.fix == s.fix
            && t.Text() + Put(s.fix, s.level, Body(bytes[end..])) == s.Text() + Put(s.fix, s.level, Body(bytes[i..]))
  {
    hide Append, Format, ByteList, Body, Put, State.Text;
    var line := ByteList(bytes[i..end]);
    LineAppended(env, s, bytes[i..end]);
    BodySplit(bytes, i, end, s.fix, s.level);
    var first, more := Put(s.fix, s.level, [line]), Put(s.fix, s.level, Body(bytes[end..]));
    assert s.Text() + first + more == s.Text() + (first + more);
  }

  lemma BodySplit(bytes: seq<Byte>, i: nat, end: nat, fix: bool, level: int)
    requires i < |bytes| && end == if i + STEP < |bytes| then i + STEP else |bytes|
    ensures Put(fix, level, Body(bytes[i..])) ==
            Put(fix, level, [ByteList(bytes[i..end])]) + Put(fix, level, Body(bytes[end..]))
  {
    hide ByteList, Indented;
    var rest := bytes[i..];
    var line := ByteList(bytes[i..end]);
    assert rest[..ChunkEnd(rest)] == bytes[i..end] && rest[ChunkEnd(rest)..] == bytes[end..];
    assert Body(rest) == [line] + Body(bytes[end..]);
    hide Body;
    if fix {
      var all, more := [line] + Body(bytes[end..]), Body(bytes[end..]);
      assert all[1..] == more && all[0] == line && [line][1..] == [] && Joined(level, []) == "";
      assert Joined(level, [line]) + Joined(level, more) == Joined(level, all);
    } else {
      ConcatAppend([line], Body(bytes[end..]));
    }
  }

  lemma FooterAppended(env: Env, s: State)
    requires s.level >= 0
    ensures Format(env, "};") == Some("};")
    ensures var t := Append(s, "};");
            t.Text() == s.Text() + PutText(s.fix, s.level, "};") && t.level == s.level && t.fix == s.fix
  {
    PlainFormat(env, "};");
    TextAppended(s, "};");
  }

  // ----- Reading the array back -----

  /** Comma-terminated decimals. */
  function ParseBytes(s: string, acc: nat): seq<nat> {
    if s == "" then []
    else if IsDigit(s[0]) then ParseBytes(s[1..], acc * 10 + DigitValue(s[0]))
    else [acc] + ParseBytes(s[1..], 0)
  }

  lemma {:induction false} ParseDigits(d: string, rest: string, acc: nat)
    requires forall i :: 0 <= i < |d| ==> IsDigit(d[i])
    ensures ParseBytes(d + "," + rest, acc) == [Leading(d, acc)] + ParseBytes(rest, 0)
    decreases |d|
  {
    var s := d + "," + rest;
    if d == "" {
      assert s[0] == ',' && s[1..] == rest;
    } else {
      assert s[1..] == d[1..] + "," + rest;
      ParseDigits(d[1..], rest, acc * 10 + DigitValue(d[0]));
    }
  }

  lemma {:induction false} ParseByteList(bytes: seq<Byte>, rest: string)
    ensures ParseBytes(ByteList(bytes) + rest, 0) == bytes + ParseBytes(rest, 0)
    decreases |bytes|
  {
    hide ParseBytes, Digits;
    if bytes == [] {
      assert ByteList(bytes) + rest == rest;
    } else {
      var d, more := Digits(bytes[0]), ByteList(bytes[1..]) + rest;
      assert ByteList(bytes) + rest == d + "," + more;
      hide ByteList;
      ParseByteList(bytes[1..], rest);
      ParseDigits(d, more, 0);
      assert d + "" == d;
      LeadingDigits(bytes[0], "");
      var parsed := ParseBytes(rest, 0);
      assert [bytes[0]] + (bytes[1..] + parsed) == bytes + parsed;
    }
  }

  lemma {:induction false} ParseBody(bytes: seq<Byte>)
    ensures ParseBytes(Concat(Body(bytes)), 0) == bytes
    decreases |bytes|
  {
    if bytes != [] {
      var n := ChunkEnd(bytes);
      ParseBody(bytes[n..]);
      assert Body(bytes)[1..] == Body(bytes[n..]);
      hide ParseBytes, ByteList;
      ParseByteList(bytes[..n], Concat(Body(bytes[n..])));
      assert bytes == bytes[..n] + bytes[n..];
    }
  }

  lemma {:induction false} BodyOneLiners(bytes: seq<Byte>)
    ensures OneLiners(Body(bytes))
    decreases |bytes|
  {
    if bytes != [] {
      BodyOneLiners(bytes[ChunkEnd(bytes)..]);
      ByteChars(bytes[..ChunkEnd(bytes)]);
    }
  }

  /** The body of the emitted array, its indentation removed, is the bytes again. */
  lemma RoundTrip(level: nat, bytes: seq<Byte>)
    ensures ParseBytes(Concat(StripAll(level, SplitLines(Joined(level, Body(bytes))))), 0) == bytes
  {
    BodyOneLiners(bytes);
    SplitJoined(level, Body(bytes));
    ParseBody(bytes);
  }

  /** Every line but the last holds sixteen bytes, the last one the rest. */
  lemma {:induction false} LineShape(bytes: seq<Byte>, k: nat)
    requires k < |Body(bytes)|
    ensures 16 * (|Body(bytes)| - 1) < |bytes| <= 16 * |Body(bytes)|
    ensures 16 * k <= |bytes|
    ensures Body(bytes)[k] == ByteList(bytes[16 * k..if 16 * (k + 1) <= |bytes| then 16 * (k + 1) else |bytes|])
    decreases |bytes|
  {
    hide ByteList;
    var n := ChunkEnd(bytes);
    var rest := bytes[n..];
    assert bytes[0..] == bytes;
    if rest == [] {
      assert Body(bytes) == [ByteList(FirstBytes(bytes))];
    } else {
      LineShape(rest, if k == 0 then 0 else k - 1);
      if k > 0 {
        var end := if 16 * (k + 1) <= |bytes| then 16 * (k + 1) else |bytes|;
        assert rest[16 * (k - 1)..end - 16] == bytes[16 * k..end];
      }
    }
  }

  function FirstBytes(bytes: seq<Byte>): seq<Byte> { bytes[..ChunkEnd(bytes)] }
}
