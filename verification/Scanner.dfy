/**
 The `$`-template scanner of `code_formatter.__call__`: a substitution by one regular expression whose
 alternatives are tried in order at every position.
 */
module Scanner {
  import opened Wrappers
  import opened Decimal

  /** What a template can refer to: names in scope, positional arguments, Python expressions. */
  datatype Env = Env(lookup: string -> Option<string>, args: seq<string>, eval: string -> Option<string>)

  /** The pattern's first identifier character is the range from 'A' to 'z', punctuation included. */
  predicate IdentStart(c: char) { 'A' <= c <= 'z' }

  predicate IsWord(c: char) { 'a' <= c <= 'z' || 'A' <= c <= 'Z' || IsDigit(c) || c == '_' }

  function WordRun(s: string): (n: nat)
    ensures n <= |s|
  {
    if s == "" || !IsWord(s[0]) then 0 else 1 + WordRun(s[1..])
  }

  /** The length of the identifier s begins with, 0 if there is none. */
  function IdentRun(s: string): (n: nat)
    ensures n <= |s|
  {
    if s == "" || !IdentStart(s[0]) then 0 else 1 + WordRun(s[1..])
  }

  function DigitRun(s: string): (n: nat)
    ensures n <= |s|
  {
    if s == "" || !IsDigit(s[0]) then 0 else 1 + DigitRun(s[1..])
  }

  function SpaceRun(s: string): (n: nat)
    ensures n <= |s|
  {
    if s == "" || s[0] != ' ' then 0 else 1 + SpaceRun(s[1..])
  }

  /** The position of the first "}}", if any. */
  function FindClose(s: string): (r: Option<nat>)
    ensures r.Some? ==> r.value + 2 <= |s|
  {
    if |s| < 2 then None
    else if s[0] == '}' && s[1] == '}' then Some(0)
    else
      var r := FindClose(s[1..]);
      if r.Some? then Some(r.value + 1) else None
  }

  datatype Token =
    | Escaped
    | Lone(indent: nat, name: string)
    | Ident(name: string)
    | Positional(digits: string)
    | Eval(expr: string)
    | Invalid

  datatype Match = Match(token: Token, length: nat)

  function LoneAt(s: string): (m: Option<Match>)
    ensures m.Some? ==> 0 < m.value.length <= |s|
  {
    var k := SpaceRun(s);
    if k < |s| && s[k] == '$' && IdentRun(s[k + 1..]) > 0 then
      var n := k + 1 + IdentRun(s[k + 1..]);
      if n == |s| || s[n] == '\n' then Some(Match(Lone(k, s[k + 1..n]), n)) else None
    else None
  }

  /** A braced body of n characters, closed by a brace. */
  predicate Braced(s: string, n: nat) {
    n > 0 && 2 + n < |s| && s[2 + n] == '}'
  }

  /** The first alternative that matches at the start of s; `bol` says that s begins a line. */
  function MatchHead(s: string, bol: bool): (m: Option<Match>)
    ensures m.Some? ==> 0 < m.value.length <= |s|
  {
    if |s| >= 2 && s[0] == '$' && s[1] == '$' then Some(Match(Escaped, 2))
    else if bol && LoneAt(s).Some? then LoneAt(s)
    else if s == "" || s[0] != '$' then None
    else
      var n := IdentRun(s[1..]);
      var d := DigitRun(s[1..]);
      if n > 0 then Some(Match(Ident(s[1..1 + n]), 1 + n))
      else if |s| >= 2 && s[1] == '{' && Braced(s, IdentRun(s[2..])) then
        Some(Match(Ident(s[2..2 + IdentRun(s[2..])]), 3 + IdentRun(s[2..])))
      else if d > 0 then Some(Match(Positional(s[1..1 + d]), 1 + d))
      else if |s| >= 2 && s[1] == '{' && Braced(s, DigitRun(s[2..])) then
        Some(Match(Positional(s[2..2 + DigitRun(s[2..])]), 3 + DigitRun(s[2..])))
      else if |s| >= 3 && s[1] == '{' && s[2] == '{' && FindClose(s[3..]).Some? then
        Some(Match(Eval(s[3..3 + FindClose(s[3..]).value]), 5 + FindClose(s[3..]).value))
      else Some(Match(Invalid, 1))
  }

  predicate IsBreak(c: char) {
    '\n' <= c <= '\r' || '\U{1C}' <= c <= '\U{1E}' || c == '\U{85}' || c == '\U{2028}' || c == '\U{2029}'
  }

  /** Each line of the text, its break included, behind the indentation. */
  function IndentLines(indent: string, s: string, bol: bool): string {
    if s == "" then ""
    else
      (if bol then indent else "") + [s[0]]
      + IndentLines(indent, s[1..], IsBreak(s[0]) && !(s[0] == '\r' && |s| > 1 && s[1] == '\n'))
  }

  /** `convert`: what a match is replaced with, None for an exception. */
  function Convert(env: Env, t: Token): Option<string> {
    match t
    case Escaped => Some("$")
    case Lone(k, name) =>
      var v := env.lookup(name);
      if v.Some? then Some(IndentLines(seq(k, _ => ' '), v.value, true)) else None
    case Ident(name) => env.lookup(name)
    case Positional(digits) =>
      var i := Leading(digits, 0);
      if i < |env.args| then Some(env.args[i]) else None
    case Eval(expr) => env.eval(expr)
    case Invalid => None
  }

  function Prepend(t: string, r: Option<string>): Option<string> {
    if r.Some? then Some(t + r.value) else None
  }

  function Scan(env: Env, s: string, bol: bool): Option<string>
    decreases |s|
  {
    if s == "" then Some("")
    else
      var m := MatchHead(s, bol);
      if m == None then Prepend([s[0]], Scan(env, s[1..], s[0] == '\n'))
      else
        var v := Convert(env, m.value.token);
        if v == None then None else Prepend(v.value, Scan(env, s[m.value.length..], false))
  }

  /** The template, filled in. */
  function Format(env: Env, template: string): Option<string> {
    Scan(env, template, true)
  }

  /** So brackets, a backslash, a caret and a backquote can begin a name. */
  lemma NameBeginnings(c: char)
    ensures IdentStart(c) <==> 'a' <= c <= 'z' || 'A' <= c <= 'Z' || c == '_' || c in "[\\]^`"
  {
    var odd := "[\\]^`";
    assert odd[0] == '[' && odd[1] == '\\' && odd[2] == ']' && odd[3] == '^' && odd[4] == '`';
  }

  // ----- Templates built from quoted text and references of every form -----

  function Escape(s: string): string {
    if s == "" then "" else (if s[0] == '$' then "$$" else [s[0]]) + Escape(s[1..])
  }

  /** Quoted text; a name, a position or an expression in braces; a bare name or position; a name on its own line. */
  datatype Segment =
    | Text(text: string)
    | Var(name: string)
    | Arg(digits: string)
    | Expr(expr: string)
    | Bare(name: string)
    | BareArg(digits: string)
    | LoneVar(indent: nat, name: string)

  predicate IsIdent(name: string) {
    name != "" && IdentStart(name[0]) && forall i :: 1 <= i < |name| ==> IsWord(name[i])
  }

  predicate IsNumber(digits: string) {
    digits != "" && forall i :: 0 <= i < |digits| ==> IsDigit(digits[i])
  }

  predicate ValidSegment(g: Segment) {
    match g
    case Text(_) => true
    case Expr(expr) => FindClose(expr + "}}") == Some(|expr|)
    case Arg(digits) => IsNumber(digits)
    case BareArg(digits) => IsNumber(digits)
    case _ => IsIdent(g.name)
  }

  function Blanks(k: nat): (s: string)
    ensures |s| == k && forall i :: 0 <= i < k ==> s[i] == ' '
  {
    seq(k, _ => ' ')
  }

  function Source(g: Segment): string {
    match g
    case Text(t) => Escape(t)
    case Var(name) => "${" + name + "}"
    case Arg(digits) => "${" + digits + "}"
    case Expr(expr) => "${{" + expr + "}}"
    case Bare(name) => "$" + name
    case BareArg(digits) => "$" + digits
    case LoneVar(k, name) => Blanks(k) + ("$" + name)
  }

  /** Positions count from 0; they are written in decimal. */
  function ArgValue(env: Env, digits: string): Option<string> {
    var i := Leading(digits, 0);
    if i < |env.args| then Some(env.args[i]) else None
  }

  function Value(env: Env, g: Segment): Option<string> {
    match g
    case Text(t) => Some(t)
    case Arg(digits) => ArgValue(env, digits)
    case BareArg(digits) => ArgValue(env, digits)
    case Expr(expr) => env.eval(expr)
    case LoneVar(k, name) =>
      var v := env.lookup(name);
      if v.Some? then Some(IndentLines(Blanks(k), v.value, true)) else None
    case _ => env.lookup(g.name)
  }

  function Sources(gs: seq<Segment>): string {
    if gs == [] then "" else Source(gs[0]) + Sources(gs[1..])
  }

  function Values(env: Env, gs: seq<Segment>): Option<string> {
    if gs == [] then Some("")
    else
      var v := Value(env, gs[0]);
      if v == None then None else Prepend(v.value, Values(env, gs[1..]))
  }

  /** Where on its line a segment stands. */
  datatype Place = LineStart | BehindBlanks | Inside

  function After(at: Place, t: string): Place
    decreases |t|
  {
    if t == "" then at
    else After(if t[0] == '\n' then LineStart else if t[0] == ' ' && at != Inside then BehindBlanks else Inside, t[1..])
  }

  /**
   Segments that say what they mean: a bare name ends before the next word character and is not alone on its
   line, a bare position ends before the next digit, and a name on its own line is.
   */
  ghost predicate WellPut(gs: seq<Segment>, at: Place)
    decreases |gs|
  {
    gs != [] ==>
      var rest := Sources(gs[1..]);
      && ValidSegment(gs[0])
      && (gs[0].Bare? ==> (rest != "" ==> !IsWord(rest[0])) && (at != Inside ==> rest != "" && rest[0] != '\n'))
      && (gs[0].BareArg? ==> (rest != "" ==> !IsDigit(rest[0])))
      && (gs[0].LoneVar? ==> at == LineStart && (rest != "" ==> rest[0] == '\n'))
      && WellPut(gs[1..], if gs[0].Text? then After(at, gs[0].text) else Inside)
  }

  // ----- No name is taken to be alone on its line that is not -----

  lemma BlankAhead(rest: string)
    ensures SpaceRun(" " + rest) == 1 + SpaceRun(rest)
  {
    assert (" " + rest)[1..] == rest;
  }

  lemma LonePastBlank(rest: string)
    ensures LoneAt(" " + rest).Some? <==> LoneAt(rest).Some?
  {
    hide SpaceRun, IdentRun;
    BlankAhead(rest);
    var s := " " + rest;
    var k := SpaceRun(rest);
    if k < |rest| {
      assert s[1 + k] == rest[k] && s[1 + k + 1..] == rest[k + 1..];
      var n := k + 1 + IdentRun(rest[k + 1..]);
      assert n <= |rest| && (n < |rest| ==> s[1 + n] == rest[n]);
    }
  }

  lemma NotLoneChar(c: char, rest: string)
    requires c != ' ' && (c == '$' ==> rest != "" && (rest[0] == '$' || rest[0] == '{' || IsDigit(rest[0])))
    ensures LoneAt([c] + rest) == None
  {
    assert ([c] + rest)[1..] == rest;
  }

  lemma BareNotLone(name: string, rest: string)
    requires IsIdent(name) && rest != "" && !IsWord(rest[0]) && rest[0] != '\n'
    ensures LoneAt("$" + name + rest) == None
  {
    var s := "$" + name + rest;
    IdentRunOf(name, rest);
    assert s[1..] == name + rest && s[1 + |name|] == rest[0];
  }

  /** Quoted text hides what follows it unless it is blank. */
  lemma {:induction false} EscapeNotLone(t: string, rest: string)
    requires After(BehindBlanks, t) == BehindBlanks && t != "" ==> LoneAt(rest) == None
    requires t == "" ==> LoneAt(rest) == None
    ensures LoneAt(Escape(t) + rest) == None
  {
    hide LoneAt;
    if t == "" {
      assert Escape(t) + rest == rest;
    } else {
      var u := Escape(t[1..]) + rest;
      var first := if t[0] == '$' then "$$" else [t[0]];
      assert Escape(t) == first + Escape(t[1..]);
      assert Escape(t) + rest == first + u;
      assert After(BehindBlanks, t) == After(if t[0] == '\n' then LineStart else if t[0] == ' ' then BehindBlanks else Inside, t[1..]);
      if t[0] == ' ' {
        assert t[1..] == "" ==> After(BehindBlanks, t[1..]) == BehindBlanks;
        hide After, Escape;
        EscapeNotLone(t[1..], rest);
        assert first + u == " " + u;
        LonePastBlank(u);
      } else if t[0] == '$' {
        hide After, Escape;
        assert first + u == ['$'] + ("$" + u);
        NotLoneChar('$', "$" + u);
      } else {
        hide After, Escape;
        NotLoneChar(t[0], u);
      }
    }
  }

  /** Behind blanks no well-put segments begin with a name that would be alone with those blanks. */
  lemma {:induction false} NothingLoneAhead(gs: seq<Segment>)
    requires WellPut(gs, BehindBlanks)
    ensures LoneAt(Sources(gs)) == None
    decreases |gs|
  {
    hide LoneAt;
    if gs != [] {
      var rest := Sources(gs[1..]);
      assert Sources(gs) == Source(gs[0]) + rest;
      hide Sources;
      if gs[0].Text? {
        var t := gs[0].text;
        assert t == "" ==> After(BehindBlanks, t) == BehindBlanks;
        hide After;
        if After(BehindBlanks, t) == BehindBlanks {
          NothingLoneAhead(gs[1..]);
        }
        EscapeNotLone(t, rest);
      } else if gs[0].Bare? {
        BareNotLone(gs[0].name, rest);
      } else {
        ReferenceNotLone(gs[0], rest);
      }
    }
  }

  lemma ReferenceNotLone(g: Segment, rest: string)
    requires (g.Var? || g.Arg? || g.Expr? || g.BareArg?) && ValidSegment(g)
    ensures LoneAt(Source(g) + rest) == None
  {
    hide LoneAt, FindClose;
    var s := Source(g) + rest;
    assert s[0] == '$' && (s[1] == '{' || IsDigit(s[1]));
    assert s == ['$'] + s[1..];
    NotLoneChar('$', s[1..]);
  }

  lemma BlanksAlike(t: string)
    requires t != ""
    ensures After(LineStart, t) == After(BehindBlanks, t)
  {
  }

  lemma PrependTwice(a: string, b: string, r: Option<string>)
    ensures Prepend(a, Prepend(b, r)) == Prepend(a + b, r)
    ensures Prepend("", r) == r
  {
    if r.Some? {
      assert a + (b + r.value) == (a + b) + r.value && "" + r.value == r.value;
    }
  }

  lemma ScanChar(env: Env, c: char, rest: string, bol: bool)
    requires bol ==> LoneAt((if c == '$' then "$$" else [c]) + rest) == None
    ensures Scan(env, (if c == '$' then "$$" else [c]) + rest, bol) == Prepend([c], Scan(env, rest, c == '\n'))
  {
    hide LoneAt;
    var s := (if c == '$' then "$$" else [c]) + rest;
    if c == '$' {
      assert MatchHead(s, bol) == Some(Match(Escaped, 2)) && s[2..] == rest;
    } else {
      assert MatchHead(s, bol) == None && s[1..] == rest;
    }
  }

  /** Quoted text is copied, unless it ends in a line of blanks that belong to a lone name. */
  lemma {:induction false} ScanText(env: Env, t: string, rest: string, at: Place)
    requires t != "" && After(at, t) == BehindBlanks ==> LoneAt(rest) == None
    ensures Scan(env, Escape(t) + rest, at == LineStart) == Prepend(t, Scan(env, rest, After(at, t) == LineStart))
    decreases |t|
  {
    hide Scan, LoneAt, Prepend;
    if t == "" {
      assert Escape(t) + rest == rest;
      PrependTwice("", "", Scan(env, rest, at == LineStart));
    } else {
      var u := Escape(t[1..]) + rest;
      var first := if t[0] == '$' then "$$" else [t[0]];
      assert Escape(t) + rest == first + u;
      if at == LineStart {
        BlanksAlike(t);
        EscapeNotLone(t, rest);
      }
      ScanChar(env, t[0], u, at == LineStart);
      var next := if t[0] == '\n' then LineStart else if t[0] == ' ' && at != Inside then BehindBlanks else Inside;
      ScanText(env, t[1..], rest, next);
      PrependTwice([t[0]], t[1..], Scan(env, rest, After(next, t[1..]) == LineStart));
      assert t == [t[0]] + t[1..];
    }
  }

  // ----- References -----

  lemma {:induction false} WordRunOf(w: string, rest: string)
    requires forall i :: 0 <= i < |w| ==> IsWord(w[i])
    requires rest != "" ==> !IsWord(rest[0])
    ensures WordRun(w + rest) == |w|
  {
    if w == "" {
      assert w + rest == rest;
    } else {
      assert (w + rest)[1..] == w[1..] + rest;
      WordRunOf(w[1..], rest);
    }
  }

  lemma IdentRunOf(name: string, rest: string)
    requires IsIdent(name) && (rest != "" ==> !IsWord(rest[0]))
    ensures IdentRun(name + rest) == |name|
  {
    assert (name + rest)[1..] == name[1..] + rest;
    WordRunOf(name[1..], rest);
  }

  lemma {:induction false} DigitRunOf(w: string, rest: string)
    requires forall i :: 0 <= i < |w| ==> IsDigit(w[i])
    requires rest != "" ==> !IsDigit(rest[0])
    ensures DigitRun(w + rest) == |w|
  {
    if w == "" {
      assert w + rest == rest;
    } else {
      assert (w + rest)[1..] == w[1..] + rest;
      DigitRunOf(w[1..], rest);
    }
  }

  lemma {:induction false} SpaceRunOf(k: nat, rest: string)
    requires rest != "" && rest[0] != ' '
    ensures SpaceRun(Blanks(k) + rest) == k
  {
    if k == 0 {
      assert Blanks(k) + rest == rest;
    } else {
      assert (Blanks(k) + rest)[1..] == Blanks(k - 1) + rest;
      SpaceRunOf(k - 1, rest);
    }
  }

  lemma {:induction false} FindCloseOf(e: string, rest: string)
    requires FindClose(e + "}}") == Some(|e|)
    ensures FindClose(e + "}}" + rest) == Some(|e|)
    decreases |e|
  {
    var s := e + "}}" + rest;
    if e != "" {
      assert s[1..] == e[1..] + "}}" + rest && (e + "}}")[1..] == e[1..] + "}}";
      assert s[0] == (e + "}}")[0] && s[1] == (e + "}}")[1];
      FindCloseOf(e[1..], rest);
    }
  }

  lemma BracedNotLone(s: string)
    requires |s| >= 2 && s[0] == '$' && s[1] == '{'
    ensures LoneAt(s) == None
  {
    assert s == ['$'] + s[1..];
    NotLoneChar('$', s[1..]);
  }

  lemma MatchVar(name: string, rest: string, bol: bool)
    requires IsIdent(name)
    ensures var s := "${" + name + "}" + rest;
            MatchHead(s, bol) == Some(Match(Ident(name), 3 + |name|)) && s[3 + |name|..] == rest
  {
    var s := "${" + name + "}" + rest;
    BracedNotLone(s);
    hide LoneAt;
    var t := "}" + rest;
    assert s[1..][0] == '{' && s[2..] == name + t;
    IdentRunOf(name, t);
    assert s[2 + |name|] == '}' && s[2..2 + |name|] == name;
  }

  lemma MatchArg(d: string, rest: string, bol: bool)
    requires IsNumber(d)
    ensures var s := "${" + d + "}" + rest;
            MatchHead(s, bol) == Some(Match(Positional(d), 3 + |d|)) && s[3 + |d|..] == rest
  {
    var s := "${" + d + "}" + rest;
    BracedNotLone(s);
    hide LoneAt;
    var t := "}" + rest;
    assert s[1..][0] == '{' && s[2..] == d + t;
    assert (d + t)[0] == d[0] && IdentRun(s[2..]) == 0;
    DigitRunOf(d, t);
    assert s[2 + |d|] == '}' && s[2..2 + |d|] == d;
  }

  lemma MatchDoubleBrace(s: string, n: nat, bol: bool)
    requires |s| >= 3 && s[0] == '$' && s[1] == '{' && s[2] == '{' && FindClose(s[3..]) == Some(n)
    ensures MatchHead(s, bol) == Some(Match(Token.Eval(s[3..3 + n]), 5 + n))
  {
    BracedNotLone(s);
    hide LoneAt, FindClose;
    assert s[1..][0] == '{' && s[2..][0] == '{';
  }

  lemma MatchExpr(e: string, rest: string, bol: bool)
    requires FindClose(e + "}}") == Some(|e|)
    ensures var s := "${{" + e + "}}" + rest;
            MatchHead(s, bol) == Some(Match(Token.Eval(e), 5 + |e|)) && s[5 + |e|..] == rest
  {
    hide MatchHead, FindClose;
    var s := "${{" + e + "}}" + rest;
    FindCloseOf(e, rest);
    ExprParts(e, rest);
    MatchDoubleBrace(s, |e|, bol);
  }

  lemma ExprParts(e: string, rest: string)
    ensures var s := "${{" + e + "}}" + rest;
            && |s| >= 5 + |e| && s[0] == '$' && s[1] == '{' && s[2] == '{'
            && s[3..] == e + "}}" + rest && s[3..3 + |e|] == e && s[5 + |e|..] == rest
  {
  }

  /** A bare name is read up to its last word character. */
  lemma MatchBare(name: string, rest: string, bol: bool)
    requires IsIdent(name) && (rest != "" ==> !IsWord(rest[0])) && (bol ==> rest != "" && rest[0] != '\n')
    ensures var s := "$" + name + rest;
            MatchHead(s, bol) == Some(Match(Ident(name), 1 + |name|)) && s[1 + |name|..] == rest
  {
    var s := "$" + name + rest;
    if bol {
      BareNotLone(name, rest);
    }
    hide LoneAt;
    assert s[1..] == name + rest && s[1] == name[0] && s[1..1 + |name|] == name;
    IdentRunOf(name, rest);
  }

  lemma MatchBareArg(d: string, rest: string, bol: bool)
    requires IsNumber(d) && (rest != "" ==> !IsDigit(rest[0]))
    ensures var s := "$" + d + rest;
            MatchHead(s, bol) == Some(Match(Positional(d), 1 + |d|)) && s[1 + |d|..] == rest
  {
    var s := "$" + d + rest;
    assert s == ['$'] + (d + rest);
    NotLoneChar('$', d + rest);
    hide LoneAt;
    assert s[1..] == d + rest && s[1] == d[0] && s[1..1 + |d|] == d;
    assert IdentRun(s[1..]) == 0;
    DigitRunOf(d, rest);
  }

  /** A name alone on its line is read together with the blanks before it. */
  lemma MatchLone(k: nat, name: string, rest: string)
    requires IsIdent(name) && (rest != "" ==> rest[0] == '\n')
    ensures var s := Blanks(k) + ("$" + name) + rest; var n := k + 1 + |name|;
            MatchHead(s, true) == Some(Match(Lone(k, name), n)) && s[n..] == rest
  {
    var s, n := Blanks(k) + ("$" + name) + rest, k + 1 + |name|;
    assert s[k + 1..] == name + rest && s[n..] == rest && s[k] == '$';
    LoneFound(s, k, name, rest);
    hide LoneAt;
    assert k == 0 ==> s[1] == s[k + 1..][0] == name[0];
    assert k > 0 ==> s[0] == ' ';
  }

  lemma LoneFound(s: string, k: nat, name: string, rest: string)
    requires s == Blanks(k) + ("$" + name) + rest && IsIdent(name) && (rest != "" ==> rest[0] == '\n')
    ensures LoneAt(s) == Some(Match(Lone(k, name), k + 1 + |name|))
  {
    var n := k + 1 + |name|;
    assert s == Blanks(k) + ("$" + name + rest);
    SpaceRunOf(k, "$" + name + rest);
    IdentRunOf(name, rest);
    hide SpaceRun, IdentRun, IsIdent, Blanks;
    assert s[k] == '$' && s[k + 1..] == name + rest && s[k + 1..n] == name && |s| == n + |rest|;
    assert rest != "" ==> s[n] == rest[0];
  }

  lemma ScanReference(env: Env, g: Segment, rest: string, at: Place)
    requires !g.Text? && ValidSegment(g)
    requires g.Bare? ==> (rest != "" ==> !IsWord(rest[0])) && (at == LineStart ==> rest != "" && rest[0] != '\n')
    requires g.BareArg? ==> (rest != "" ==> !IsDigit(rest[0]))
    requires g.LoneVar? ==> at == LineStart && (rest != "" ==> rest[0] == '\n')
    ensures Scan(env, Source(g) + rest, at == LineStart) ==
            var v := Value(env, g); if v == None then None else Prepend(v.value, Scan(env, rest, false))
  {
    hide MatchHead, FindClose, IndentLines, Prepend, Scan, IsIdent;
    var bol, s := at == LineStart, Source(g) + rest;
    match g
    case Var(name) =>
      MatchVar(name, rest, bol);
      ScanMatched(env, s, bol, Ident(name), 3 + |name|, rest);
    case Arg(d) =>
      MatchArg(d, rest, bol);
      ScanMatched(env, s, bol, Positional(d), 3 + |d|, rest);
    case Expr(e) =>
      MatchExpr(e, rest, bol);
      ScanMatched(env, s, bol, Token.Eval(e), 5 + |e|, rest);
    case Bare(name) =>
      MatchBare(name, rest, bol);
      ScanMatched(env, s, bol, Ident(name), 1 + |name|, rest);
    case BareArg(d) =>
      MatchBareArg(d, rest, bol);
      ScanMatched(env, s, bol, Positional(d), 1 + |d|, rest);
    case LoneVar(k, name) =>
      MatchLone(k, name, rest);
      ScanMatched(env, s, bol, Lone(k, name), k + 1 + |name|, rest);
      assert Convert(env, Lone(k, name)) == Value(env, g) by {
        assert seq(k, _ => ' ') == Blanks(k);
      }
  }

  lemma ScanMatched(env: Env, s: string, bol: bool, token: Token, n: nat, rest: string)
    requires s != "" && MatchHead(s, bol) == Some(Match(token, n)) && s[n..] == rest
    ensures Scan(env, s, bol) ==
            var v := Convert(env, token); if v == None then None else Prepend(v.value, Scan(env, rest, false))
  {
    hide MatchHead, Convert, Prepend;
  }

  /**
   Filling in a template of quoted text and references of every form gives the text unquoted and the
   references' values, in order; it fails exactly when one of the references does.
   */
  lemma {:induction false} FormatSegments(env: Env, gs: seq<Segment>, at: Place)
    requires WellPut(gs, at)
    ensures Scan(env, Sources(gs), at == LineStart) == Values(env, gs)
    decreases |gs|
  {
    hide Scan, ValidSegment, Source, Value, LoneAt, Prepend;
    if gs == [] {
      ScanEmpty(env, at == LineStart);
    } else {
      var rest := Sources(gs[1..]);
      if gs[0].Text? {
        var t := gs[0].text;
        if After(at, t) == BehindBlanks {
          NothingLoneAhead(gs[1..]);
        }
        ScanText(env, t, rest, at);
        FormatSegments(env, gs[1..], After(at, t));
        TextSegment(env, gs[0]);
      } else {
        ScanReference(env, gs[0], rest, at);
        FormatSegments(env, gs[1..], Inside);
      }
    }
  }

  lemma ScanEmpty(env: Env, bol: bool)
    ensures Scan(env, "", bol) == Some("")
  {
  }

  lemma TextSegment(env: Env, g: Segment)
    requires g.Text?
    ensures Source(g) == Escape(g.text) && Value(env, g) == Some(g.text)
  {
  }

  /** Text and braced references may stand anywhere. */
  lemma {:induction false} BracedWellPut(gs: seq<Segment>, at: Place)
    requires forall g :: g in gs ==> ValidSegment(g) && (g.Text? || g.Var? || g.Arg? || g.Expr?)
    ensures WellPut(gs, at)
    decreases |gs|
  {
    if gs != [] {
      assert gs[0] in gs;
      hide ValidSegment;
      BracedWellPut(gs[1..], if gs[0].Text? then After(at, gs[0].text) else Inside);
    }
  }

  /** A position written in decimal names the argument of that number. */
  lemma ArgOfNumber(env: Env, i: nat)
    ensures IsNumber(Digits(i)) && ArgValue(env, Digits(i)) == if i < |env.args| then Some(env.args[i]) else None
  {
    LeadingDigits(i, "");
    assert Digits(i) + "" == Digits(i);
  }

  // ----- Lone names: every line of the value is indented -----

  function Unlines(ls: seq<string>): string {
    if ls == [] then "" else ls[0] + "\n" + Unlines(ls[1..])
  }

  function Shifted(k: nat, ls: seq<string>): seq<string> {
    if ls == [] then [] else [Blanks(k) + ls[0]] + Shifted(k, ls[1..])
  }

  ghost predicate NoBreak(s: string) {
    forall i :: 0 <= i < |s| ==> !IsBreak(s[i])
  }

  lemma {:induction false} IndentRest(indent: string, x: string, rest: string)
    requires NoBreak(x)
    ensures IndentLines(indent, x + rest, false) == x + IndentLines(indent, rest, false)
  {
    if x == "" {
      assert x + rest == rest;
    } else {
      assert (x + rest)[1..] == x[1..] + rest;
      IndentRest(indent, x[1..], rest);
      assert x == [x[0]] + x[1..];
    }
  }

  lemma IndentBreak(indent: string, rest: string, bol: bool)
    ensures IndentLines(indent, "\n" + rest, bol) ==
            (if bol then indent else "") + "\n" + IndentLines(indent, rest, true)
  {
    assert ("\n" + rest)[1..] == rest;
  }

  /** A line's first character is the only one indented. */
  lemma IndentLine(indent: string, x: string, rest: string)
    requires NoBreak(x) && x != ""
    ensures IndentLines(indent, x + rest, true) == indent + x + IndentLines(indent, rest, false)
  {
    assert (x + rest)[1..] == x[1..] + rest;
    assert IndentLines(indent, x + rest, true) == indent + [x[0]] + IndentLines(indent, x[1..] + rest, false);
    hide IndentLines;
    IndentRest(indent, x[1..], rest);
    assert x == [x[0]] + x[1..];
  }

  lemma IndentFirst(indent: string, x: string, rest: string)
    requires NoBreak(x)
    ensures IndentLines(indent, x + ("\n" + rest), true) == indent + x + "\n" + IndentLines(indent, rest, true)
  {
    hide IndentLines, NoBreak;
    IndentBreak(indent, rest, x == "");
    if x == "" {
      assert x + ("\n" + rest) == "\n" + rest && indent + x == indent;
    } else {
      IndentLine(indent, x, "\n" + rest);
      assert "" + "\n" == "\n";
    }
  }

  lemma UnlinesShifted(k: nat, ls: seq<string>)
    requires ls != []
    ensures Unlines(Shifted(k, ls)) == Blanks(k) + ls[0] + "\n" + Unlines(Shifted(k, ls[1..]))
  {
    assert Shifted(k, ls)[1..] == Shifted(k, ls[1..]);
  }

  /** Each of the lines ls, and the unended one behind them, stands behind k blanks. */
  lemma {:induction false} IndentEach(k: nat, ls: seq<string>, last: string)
    requires NoBreak(last) && forall l :: l in ls ==> NoBreak(l)
    ensures IndentLines(Blanks(k), Unlines(ls) + last, true) ==
            Unlines(Shifted(k, ls)) + (if last == "" then "" else Blanks(k) + last)
    decreases |ls|
  {
    hide IndentLines, NoBreak, Blanks;
    var b := Blanks(k);
    if ls == [] {
      assert Unlines(ls) + last == last == last + "";
      IndentNothing(b, last == "");
      if last != "" {
        IndentLine(b, last, "");
      }
    } else {
      assert ls[0] in ls;
      IndentEach(k, ls[1..], last);
      var more := Unlines(ls[1..]) + last;
      assert Unlines(ls) + last == ls[0] + ("\n" + more);
      IndentFirst(b, ls[0], more);
      UnlinesShifted(k, ls);
      hide Unlines, Shifted;
      var end := if last == "" then "" else b + last;
      assert b + ls[0] + "\n" + (Unlines(Shifted(k, ls[1..])) + end) ==
             b + ls[0] + "\n" + Unlines(Shifted(k, ls[1..])) + end;
    }
  }

  lemma IndentNothing(indent: string, bol: bool)
    ensures IndentLines(indent, "", bol) == ""
  {
  }

  // ----- Dollars that begin nothing -----

  /** A dollar that begins an escape or a reference. */
  ghost predicate Begins(s: string) {
    || StartsWith(s, "$$")
    || exists g: Segment :: !g.Text? && !g.LoneVar? && ValidSegment(g) && StartsWith(s, Source(g))
  }

  predicate StartsWith(s: string, t: string) { |t| <= |s| && s[..|t|] == t }

  /** All other dollars make the call fail. */
  lemma InvalidExactly(s: string)
    requires s != "" && s[0] == '$'
    ensures MatchHead(s, false).Some? && (MatchHead(s, false).value.token == Invalid <==> !Begins(s))
  {
    if MatchHead(s, false).value.token != Invalid {
      ValidBegins(s);
    }
    if Begins(s) {
      if StartsWith(s, "$$") {
        assert s[..2][1] == s[1];
      } else {
        var g: Segment :| !g.Text? && !g.LoneVar? && ValidSegment(g) && StartsWith(s, Source(g));
        BeginsValid(s, g);
      }
    }
  }

  lemma {:induction false} RunIsWord(s: string)
    ensures forall i :: 0 <= i < WordRun(s) ==> IsWord(s[i])
  {
    if s != "" && IsWord(s[0]) {
      RunIsWord(s[1..]);
    }
  }

  lemma {:induction false} RunIsDigits(s: string)
    ensures forall i :: 0 <= i < DigitRun(s) ==> IsDigit(s[i])
  {
    if s != "" && IsDigit(s[0]) {
      RunIsDigits(s[1..]);
    }
  }

  lemma IdentPrefix(s: string)
    ensures var n := IdentRun(s); n > 0 ==> IsIdent(s[..n])
  {
    if s != "" {
      RunIsWord(s[1..]);
    }
  }

  lemma {:induction false} ClosePrefix(t: string)
    requires FindClose(t).Some?
    ensures var m := FindClose(t).value; FindClose(t[..m] + "}}") == Some(m)
    decreases |t|
  {
    var m := FindClose(t).value;
    var e := t[..m] + "}}";
    if m > 0 {
      ClosePrefix(t[1..]);
      assert t[1..][..m - 1] == t[..m][1..] && e[1..] == t[1..][..m - 1] + "}}";
      assert e[0] == t[0] && (m > 1 ==> e[1] == t[1]);
      CloseIsFirst(t, m);
    }
  }

  lemma {:induction false} CloseIsFirst(t: string, m: nat)
    requires FindClose(t) == Some(m)
    ensures t[m] == '}' && t[m + 1] == '}'
    decreases |t|
  {
    if m > 0 {
      CloseIsFirst(t[1..], m - 1);
    }
  }

  lemma ValidBegins(s: string)
    requires s != "" && s[0] == '$' && MatchHead(s, false).value.token != Invalid
    ensures Begins(s)
  {
    var m := MatchHead(s, false).value;
    match m.token
    case Escaped =>
      assert s[..2] == "$$";
    case Ident(name) =>
      if IdentRun(s[1..]) > 0 {
        BareBegins(s);
      } else {
        VarBegins(s);
      }
    case Positional(digits) =>
      if DigitRun(s[1..]) > 0 {
        BareArgBegins(s);
      } else {
        ArgBegins(s);
      }
    case Eval(expr) =>
      ExprBegins(s);
  }

  lemma BareBegins(s: string)
    requires s != "" && s[0] == '$' && IdentRun(s[1..]) > 0
    ensures Begins(s)
  {
    var n := IdentRun(s[1..]);
    IdentPrefix(s[1..]);
    var g := Bare(s[1..][..n]);
    assert s[..1 + n] == "$" + s[1..][..n];
    assert ValidSegment(g) && StartsWith(s, Source(g));
  }

  lemma VarBegins(s: string)
    requires |s| >= 2 && s[0] == '$' && s[1] == '{' && Braced(s, IdentRun(s[2..]))
    ensures Begins(s)
  {
    var n := IdentRun(s[2..]);
    IdentPrefix(s[2..]);
    var g := Var(s[2..][..n]);
    assert s[..3 + n] == "${" + s[2..][..n] + "}";
    assert ValidSegment(g) && StartsWith(s, Source(g));
  }

  lemma BareArgBegins(s: string)
    requires s != "" && s[0] == '$' && DigitRun(s[1..]) > 0
    ensures Begins(s)
  {
    var n := DigitRun(s[1..]);
    RunIsDigits(s[1..]);
    var g := BareArg(s[1..][..n]);
    assert s[..1 + n] == "$" + s[1..][..n];
    assert ValidSegment(g) && StartsWith(s, Source(g));
  }

  lemma ArgBegins(s: string)
    requires |s| >= 2 && s[0] == '$' && s[1] == '{' && Braced(s, DigitRun(s[2..]))
    ensures Begins(s)
  {
    var n := DigitRun(s[2..]);
    RunIsDigits(s[2..]);
    var g := Arg(s[2..][..n]);
    assert s[..3 + n] == "${" + s[2..][..n] + "}";
    assert ValidSegment(g) && StartsWith(s, Source(g));
  }

  lemma ExprBegins(s: string)
    requires |s| >= 3 && s[0] == '$' && s[1] == '{' && s[2] == '{' && FindClose(s[3..]).Some?
    ensures Begins(s)
  {
    var t := s[3..];
    var n := FindClose(t).value;
    ClosePrefix(t);
    CloseIsFirst(t, n);
    var g := Expr(t[..n]);
    hide FindClose;
    assert s[..5 + n] == "${{" + t[..n] + "}}";
    assert ValidSegment(g) && StartsWith(s, Source(g));
  }

  lemma BeginsValid(s: string, g: Segment)
    requires !g.Text? && !g.LoneVar? && ValidSegment(g) && StartsWith(s, Source(g))
    ensures s != "" && s[0] == '$' && MatchHead(s, false).Some? && MatchHead(s, false).value.token != Invalid
  {
    var x := Source(g);
    var tail := s[|x|..];
    assert s == x + tail;
    match g
    case Var(name) =>
      MatchVar(name, tail, false);
    case Arg(d) =>
      MatchArg(d, tail, false);
    case Expr(e) =>
      MatchExpr(e, tail, false);
    case Bare(name) =>
      assert s[1..] != "" && s[1..][0] == name[0];
    case BareArg(d) =>
      assert s[1..] != "" && s[1..][0] == d[0] && s[1] == d[0];
  }

  /** And the whole scan with it, on a line of its own or not. */
  lemma InvalidFails(env: Env, s: string, bol: bool)
    requires s != "" && s[0] == '$' && !Begins(s)
    ensures Scan(env, s, bol) == None
  {
    InvalidExactly(s);
    if LoneAt(s).Some? {
      LoneBegins(s);
    }
    hide LoneAt;
    assert MatchHead(s, bol) == MatchHead(s, false);
  }

  lemma LoneBegins(s: string)
    requires s != "" && s[0] == '$' && LoneAt(s).Some?
    ensures Begins(s)
  {
    BareBegins(s);
  }

  /** Doubling the dollars of any text is undone by the scanner, whatever follows them. */
  lemma EscapeRoundTrip(env: Env, t: string)
    ensures Format(env, Escape(t)) == Some(t)
  {
    assert Escape(t) + "" == Escape(t) && t + "" == t;
    ScanText(env, t, "", LineStart);
  }
}
