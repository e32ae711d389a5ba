/**
 Evaluating a filled-in expression: sums, differences, products and quotients of numbers and parenthesised
 expressions.  How a numeral is read is left to the caller.
 */
module Arithmetic {
  import opened Wrappers

  datatype Parsed = Parsed(value: real, rest: string)

  predicate NumeralChar(c: char) { '0' <= c <= '9' || c == '.' }

  function Skip(s: string): (r: string)
    ensures |r| <= |s| && (r != "" ==> r[0] != ' ')
  {
    if s != "" && s[0] == ' ' then Skip(s[1..]) else s
  }

  function NumeralRun(s: string): (n: nat)
    ensures n <= |s|
  {
    if s == "" || !NumeralChar(s[0]) then 0 else 1 + NumeralRun(s[1..])
  }

  function Apply(op: char, a: real, b: real): real
    requires op == '/' ==> b != 0.0
  {
    if op == '+' then a + b else if op == '-' then a - b else if op == '/' then a / b else a * b
  }

  function Sum(num: string -> real, s: string): (r: Option<Parsed>)
    ensures r.Some? ==> |r.value.rest| < |s|
    decreases |s|, 4
  {
    var t := Term(num, s);
    if t == None then None else SumRest(num, t.value.value, t.value.rest)
  }

  function SumRest(num: string -> real, acc: real, s: string): (r: Option<Parsed>)
    ensures r.Some? ==> |r.value.rest| <= |s|
    decreases |s|, 3
  {
    var u := Skip(s);
    if u != "" && (u[0] == '+' || u[0] == '-') then
      var t := Term(num, u[1..]);
      if t == None then None
      else SumRest(num, Apply(u[0], acc, t.value.value), t.value.rest)
    else Some(Parsed(acc, s))
  }

  function Term(num: string -> real, s: string): (r: Option<Parsed>)
    ensures r.Some? ==> |r.value.rest| < |s|
    decreases |s|, 2
  {
    var f := Factor(num, s);
    if f == None then None else TermRest(num, f.value.value, f.value.rest)
  }

  function TermRest(num: string -> real, acc: real, s: string): (r: Option<Parsed>)
    ensures r.Some? ==> |r.value.rest| <= |s|
    decreases |s|, 1
  {
    var u := Skip(s);
    if u != "" && (u[0] == '*' || u[0] == '/') then
      var f := Factor(num, u[1..]);
      if f == None || (u[0] == '/' && f.value.value == 0.0) then None
      else TermRest(num, Apply(u[0], acc, f.value.value), f.value.rest)
    else Some(Parsed(acc, s))
  }

  function Factor(num: string -> real, s: string): (r: Option<Parsed>)
    ensures r.Some? ==> |r.value.rest| < |s|
    decreases |s|, 0
  {
    var u := Skip(s);
    if u == "" then None
    else if u[0] == '(' then
      var p := Sum(num, u[1..]);
      if p == None then None
      else
        var w := Skip(p.value.rest);
        if w != "" && w[0] == ')' then Some(Parsed(p.value.value, w[1..])) else None
    else if u[0] == '-' || u[0] == '+' then
      var f := Factor(num, u[1..]);
      if f == None then None
      else Some(Parsed(if u[0] == '-' then -f.value.value else f.value.value, f.value.rest))
    else
      var n := NumeralRun(u);
      if n == 0 then None else Some(Parsed(num(u[..n]), u[n..]))
  }

  function Eval(num: string -> real, s: string): Option<real> {
    var r := Sum(num, s);
    if r.Some? && Skip(r.value.rest) == "" then Some(r.value.value) else None
  }

  // ----- Expressions and what they are worth -----

  /** A sum: its last term is added to, or taken from, what stands to the left of it. */
  datatype Additive = Alone(t: Multiplicative) | Summed(left: Additive, minus: bool, t: Multiplicative)

  datatype Multiplicative = Single(f: Operand) | Multiplied(left: Multiplicative, over: bool, f: Operand)

  datatype Operand = Numeral(digits: string) | Signed(minus: bool, f: Operand) | Group(e: Additive)

  function ShowSum(e: Additive): string {
    match e
    case Alone(t) => ShowTerm(t)
    case Summed(left, minus, t) => ShowSum(left) + ((if minus then " - " else " + ") + ShowTerm(t))
  }

  function ShowTerm(m: Multiplicative): string {
    match m
    case Single(f) => ShowOperand(f)
    case Multiplied(left, over, f) => ShowTerm(left) + ((if over then " / " else " * ") + ShowOperand(f))
  }

  function ShowOperand(f: Operand): string {
    match f
    case Numeral(digits) => digits
    case Signed(minus, g) => (if minus then "-" else "+") + ShowOperand(g)
    case Group(e) => "(" + ShowSum(e) + ")"
  }

  predicate SoundSum(e: Additive) {
    match e
    case Alone(t) => SoundTerm(t)
    case Summed(left, _, t) => SoundSum(left) && SoundTerm(t)
  }

  predicate SoundTerm(m: Multiplicative) {
    match m
    case Single(f) => SoundOperand(f)
    case Multiplied(left, _, f) => SoundTerm(left) && SoundOperand(f)
  }

  predicate SoundOperand(f: Operand) {
    match f
    case Numeral(digits) => digits != "" && forall i :: 0 <= i < |digits| ==> NumeralChar(digits[i])
    case Signed(_, g) => SoundOperand(g)
    case Group(e) => SoundSum(e)
  }

  /** Numbers are written in digits and points. */
  lemma NumeralsAre(s: string)
    ensures SoundOperand(Numeral(s)) <==> s != "" && forall c :: c in s ==> c in "0123456789."
  {
    assert forall c :: NumeralChar(c) <==> c in "0123456789.";
    assert forall i :: 0 <= i < |s| ==> s[i] in s;
  }

  function Times(x: real, y: real): real { x * y }

  function Over(x: real, y: real): real
    requires y != 0.0
  {
    x / y
  }

  /** The value, None where it divides by zero. */
  function SumValue(num: string -> real, e: Additive): Option<real> {
    match e
    case Alone(t) => TermValue(num, t)
    case Summed(left, minus, t) =>
      var x, y := SumValue(num, left), TermValue(num, t);
      if x == None || y == None then None else Some(if minus then x.value - y.value else x.value + y.value)
  }

  function TermValue(num: string -> real, m: Multiplicative): Option<real> {
    match m
    case Single(f) => OperandValue(num, f)
    case Multiplied(left, over, f) =>
      var x, y := TermValue(num, left), OperandValue(num, f);
      if x == None || y == None || (over && y.value == 0.0) then None
      else Some(if over then Over(x.value, y.value) else Times(x.value, y.value))
  }

  function OperandValue(num: string -> real, f: Operand): Option<real> {
    match f
    case Numeral(digits) => Some(num(digits))
    case Signed(minus, g) =>
      var x := OperandValue(num, g);
      if x == None then None else Some(if minus then 0.0 - x.value else x.value)
    case Group(e) => SumValue(num, e)
  }

  /** Text behind which a numeral ends. */
  ghost predicate Ends(t: string) { t != "" ==> !NumeralChar(t[0]) }

  /** Text behind which a product ends, too. */
  ghost predicate EndsTerm(t: string) {
    Ends(t) && var u := Skip(t); u != "" ==> u[0] != '*' && u[0] != '/'
  }

  lemma FactorSkips(num: string -> real, s: string)
    ensures Factor(num, s).Some? || Factor(num, " " + s) == None
    ensures Factor(num, " " + s) == Factor(num, s)
  {
    assert (" " + s)[1..] == s;
  }

  lemma TermIgnoresBlank(num: string -> real, s: string)
    ensures Term(num, " " + s) == Term(num, s)
  {
    hide Factor, TermRest;
    FactorSkips(num, s);
  }

  lemma {:induction false} NumeralRunOf(digits: string, t: string)
    requires (forall i :: 0 <= i < |digits| ==> NumeralChar(digits[i])) && Ends(t)
    ensures NumeralRun(digits + t) == |digits|
  {
    if digits == "" {
      assert digits + t == t;
    } else {
      assert (digits + t)[1..] == digits[1..] + t;
      NumeralRunOf(digits[1..], t);
    }
  }

  lemma ReadNumeral(num: string -> real, digits: string, t: string)
    requires SoundOperand(Numeral(digits)) && Ends(t)
    ensures Factor(num, digits + t) == Some(Parsed(num(digits), t))
  {
    var s := digits + t;
    assert s[0] == digits[0] && Skip(s) == s;
    NumeralRunOf(digits, t);
    assert s[..|digits|] == digits && s[|digits|..] == t;
  }

  lemma ReadSigned(num: string -> real, minus: bool, s: string)
    ensures var r := Factor(num, s);
            Factor(num, (if minus then "-" else "+") + s) ==
            if r == None then None
            else Some(Parsed(if minus then 0.0 - r.value.value else r.value.value, r.value.rest))
  {
    var u := (if minus then "-" else "+") + s;
    assert Skip(u) == u && u[1..] == s;
  }

  lemma SumStops(num: string -> real, v: real, t: string)
    ensures SumRest(num, v, ")" + t) == Some(Parsed(v, ")" + t)) && Skip(")" + t) == ")" + t
  {
  }

  lemma ReadOpen(num: string -> real, y: string)
    ensures var p := Sum(num, y);
            Factor(num, "(" + y) ==
            if p == None then None
            else
              var w := Skip(p.value.rest);
              if w != "" && w[0] == ')' then Some(Parsed(p.value.value, w[1..])) else None
  {
    hide Sum;
    var s := "(" + y;
    assert Skip(s) == s && s[1..] == y && s[0] == '(';
  }

  lemma ReadGroup(num: string -> real, x: string, t: string, v: Option<real>)
    requires Sum(num, x + (")" + t)) == if v == None then None else SumRest(num, v.value, ")" + t)
    ensures Factor(num, "(" + x + ")" + t) == if v == None then None else Some(Parsed(v.value, t))
  {
    hide Sum, SumRest, Factor, Skip;
    var c := ")" + t;
    ReadOpen(num, x + c);
    assert "(" + x + ")" + t == "(" + (x + c) && c[1..] == t && c[0] == ')';
    if v.Some? {
      SumStops(num, v.value, t);
    }
  }

  /** An operand is read to its end, and for its value. */
  lemma {:induction false} OperandRead(num: string -> real, f: Operand, t: string)
    requires SoundOperand(f) && Ends(t)
    ensures var v := OperandValue(num, f);
            Factor(num, ShowOperand(f) + t) == if v == None then None else Some(Parsed(v.value, t))
    decreases f
  {
    hide Factor, Sum, SumRest, NumeralChar;
    match f
    case Numeral(digits) =>
      ReadNumeral(num, digits, t);
    case Signed(minus, g) =>
      OperandRead(num, g, t);
      ReadSigned(num, minus, ShowOperand(g) + t);
      var sign := if minus then "-" else "+";
      assert ShowOperand(f) + t == sign + (ShowOperand(g) + t);
    case Group(e) =>
      ParenEnds(t);
      SumRead(num, e, ")" + t);
      ReadGroup(num, ShowSum(e), t, SumValue(num, e));
  }

  lemma ParenEnds(t: string)
    ensures EndsTerm(")" + t)
  {
  }

  lemma SignEnds(op: char, x: string)
    requires op == '+' || op == '-'
    ensures Ends([' ', op, ' '] + x) && EndsTerm([' ', op, ' '] + x)
    ensures Skip([' ', op, ' '] + x) == [op] + (" " + x)
  {
    var s := [' ', op, ' '] + x;
    assert s[1..] == [op] + (" " + x);
  }

  lemma StarEnds(op: char, x: string)
    requires op == '*' || op == '/'
    ensures Ends([' ', op, ' '] + x) && Skip([' ', op, ' '] + x) == [op] + (" " + x)
  {
    var s := [' ', op, ' '] + x;
    assert s[1..] == [op] + (" " + x);
  }

  lemma ApplyMeans(over: bool, x: real, y: real)
    requires over ==> y != 0.0
    ensures Apply(if over then '/' else '*', x, y) == if over then Over(x, y) else Times(x, y)
  {
  }

  lemma NextFactor(num: string -> real, acc: real, over: bool, x: string)
    ensures var r := Factor(num, x);
            TermRest(num, acc, (if over then " / " else " * ") + x) ==
            if r == None || (over && r.value.value == 0.0) then None
            else TermRest(num, if over then Over(acc, r.value.value) else Times(acc, r.value.value), r.value.rest)
  {
    hide Apply, Over, Times;
    var op := if over then '/' else '*';
    var s := (if over then " / " else " * ") + x;
    assert s == [' ', op, ' '] + x;
    StarEnds(op, x);
    FactorSkips(num, x);
    hide Factor, Skip;
    var u := [op] + (" " + x);
    assert Skip(s) == u && u[1..] == " " + x && u[0] == op;
    var r := Factor(num, x);
    if r != None && !(over && r.value.value == 0.0) {
      ApplyMeans(over, acc, r.value.value);
    }
  }

  lemma NextTerm(num: string -> real, acc: real, minus: bool, x: string)
    ensures var r := Term(num, x);
            SumRest(num, acc, (if minus then " - " else " + ") + x) ==
            if r == None then None
            else SumRest(num, if minus then acc - r.value.value else acc + r.value.value, r.value.rest)
  {
    var op := if minus then '-' else '+';
    var s := (if minus then " - " else " + ") + x;
    assert s == [' ', op, ' '] + x;
    SignEnds(op, x);
    TermIgnoresBlank(num, x);
    hide Term, Skip;
    assert ([op] + (" " + x))[1..] == " " + x;
  }

  /** A product is read factor by factor, from left to right. */
  lemma {:induction false} TermRead(num: string -> real, m: Multiplicative, t: string)
    requires SoundTerm(m) && Ends(t)
    ensures var v := TermValue(num, m);
            Term(num, ShowTerm(m) + t) == if v == None then None else TermRest(num, v.value, t)
    decreases m
  {
    hide Factor, TermRest, NumeralChar, Over, Times;
    match m
    case Single(f) =>
      OperandRead(num, f, t);
    case Multiplied(left, over, f) =>
      var x := ShowOperand(f) + t;
      var op := if over then " / " else " * ";
      StarEnds(if over then '/' else '*', x);
      assert op + x == [' ', if over then '/' else '*', ' '] + x;
      TermRead(num, left, op + x);
      assert ShowTerm(m) + t == ShowTerm(left) + (op + x);
      hide Term;
      OperandRead(num, f, t);
      var v, w := TermValue(num, left), OperandValue(num, f);
      if v.Some? {
        NextFactor(num, v.value, over, x);
      }
      assert TermValue(num, m) == if v == None || w == None || (over && w.value == 0.0) then None
                                  else Some(if over then Over(v.value, w.value) else Times(v.value, w.value));
  }

  lemma TermStops(num: string -> real, v: real, t: string)
    requires EndsTerm(t)
    ensures TermRest(num, v, t) == Some(Parsed(v, t))
  {
  }

  /** A sum is read term by term, from left to right, products first. */
  lemma {:induction false} SumRead(num: string -> real, e: Additive, t: string)
    requires SoundSum(e) && EndsTerm(t)
    ensures var v := SumValue(num, e);
            Sum(num, ShowSum(e) + t) == if v == None then None else SumRest(num, v.value, t)
    decreases e
  {
    hide Term, TermRest, SumRest, NumeralChar, Skip;
    match e
    case Alone(m) =>
      TermRead(num, m, t);
      if TermValue(num, m).Some? {
        TermStops(num, TermValue(num, m).value, t);
      }
    case Summed(left, minus, m) =>
      var x := ShowTerm(m) + t;
      var op := if minus then " - " else " + ";
      SignEnds(if minus then '-' else '+', x);
      assert op + x == [' ', if minus then '-' else '+', ' '] + x;
      SumRead(num, left, op + x);
      assert ShowSum(e) + t == ShowSum(left) + (op + x);
      hide Sum;
      TermRead(num, m, t);
      if TermValue(num, m).Some? {
        TermStops(num, TermValue(num, m).value, t);
      }
      var v := SumValue(num, left);
      if v.Some? {
        NextTerm(num, v.value, minus, x);
      }
  }

  /** Evaluating a written expression gives its value, and fails exactly where that divides by zero. */
  lemma EvalShown(num: string -> real, e: Additive)
    requires SoundSum(e)
    ensures Eval(num, ShowSum(e)) == SumValue(num, e)
  {
    assert ShowSum(e) + "" == ShowSum(e);
    SumRead(num, e, "");
    hide Sum;
    assert SumValue(num, e).Some? ==>
             SumRest(num, SumValue(num, e).value, "") == Some(Parsed(SumValue(num, e).value, ""));
  }

  function Number(a: string): Multiplicative { Single(Numeral(a)) }

  /** The four operations, their precedence and that they associate to the left. */
  lemma Operations(num: string -> real, a: string, b: string, c: string)
    requires SoundOperand(Numeral(a)) && SoundOperand(Numeral(b)) && SoundOperand(Numeral(c))
    ensures Eval(num, a) == Some(num(a))
    ensures Eval(num, a + " + " + b) == Some(num(a) + num(b))
    ensures Eval(num, a + " - " + b) == Some(num(a) - num(b))
    ensures Eval(num, a + " * " + b) == Some(num(a) * num(b))
    ensures Eval(num, a + " / " + b) == if num(b) == 0.0 then None else Some(num(a) / num(b))
    ensures Eval(num, a + " - " + b + " - " + c) == Some(num(a) - num(b) - num(c))
    ensures Eval(num, a + " - " + b + " * " + c) == Some(num(a) - num(b) * num(c))
  {
    hide Eval, SoundOperand;
    var x, y, z := Number(a), Number(b), Number(c);
    assert SoundTerm(x) && SoundTerm(y) && SoundTerm(z);
    assert ShowTerm(x) == a && ShowTerm(y) == b && ShowTerm(z) == c;
    EvalShown(num, Alone(x));
    Pair(num, x, y);
    assert a + " - " + b == a + (" - " + b) && a + " + " + b == a + (" + " + b);
    Products(num, a, b);
    assert Times(num(a), num(b)) == num(a) * num(b);
    assert num(b) != 0.0 ==> Over(num(a), num(b)) == num(a) / num(b);
    var left := Summed(Alone(x), true, y);
    EvalShown(num, Summed(left, true, z));
    assert ShowSum(left) == a + (" - " + b) && SumValue(num, left) == Some(num(a) - num(b));
    assert ShowSum(Summed(left, true, z)) == a + " - " + b + " - " + c;
    var m := Multiplied(y, false, Numeral(c));
    assert SoundTerm(m) && TermValue(num, m) == Some(Times(num(b), num(c)));
    assert ShowTerm(m) == b + (" * " + c);
    Pair(num, x, m);
    assert Times(num(b), num(c)) == num(b) * num(c);
    assert a + (" - " + (b + (" * " + c))) == a + " - " + b + " * " + c;
  }

  lemma Pair(num: string -> real, x: Multiplicative, y: Multiplicative)
    requires SoundTerm(x) && SoundTerm(y) && TermValue(num, x).Some? && TermValue(num, y).Some?
    ensures Eval(num, ShowTerm(x) + (" + " + ShowTerm(y))) == Some(TermValue(num, x).value + TermValue(num, y).value)
    ensures Eval(num, ShowTerm(x) + (" - " + ShowTerm(y))) == Some(TermValue(num, x).value - TermValue(num, y).value)
  {
    hide Eval;
    EvalShown(num, Summed(Alone(x), false, y));
    EvalShown(num, Summed(Alone(x), true, y));
  }

  lemma Products(num: string -> real, a: string, b: string)
    requires SoundOperand(Numeral(a)) && SoundOperand(Numeral(b))
    ensures Eval(num, a + " * " + b) == Some(Times(num(a), num(b)))
    ensures Eval(num, a + " / " + b) == if num(b) == 0.0 then None else Some(Over(num(a), num(b)))
  {
    hide Eval, SoundOperand, Over, Times;
    var x := Number(a);
    assert SoundTerm(x) && ShowTerm(x) == a && TermValue(num, x) == Some(num(a));
    var times, over := Multiplied(x, false, Numeral(b)), Multiplied(x, true, Numeral(b));
    assert SoundTerm(times) && SoundTerm(over) && ShowOperand(Numeral(b)) == b;
    EvalShown(num, Alone(times));
    EvalShown(num, Alone(over));
    assert ShowTerm(times) == a + (" * " + b) && a + (" * " + b) == a + " * " + b;
    assert ShowTerm(over) == a + (" / " + b) && a + (" / " + b) == a + " / " + b;
    assert OperandValue(num, Numeral(b)) == Some(num(b));
    assert TermValue(num, times) == Some(Times(num(a), num(b)));
    assert TermValue(num, over) == if num(b) == 0.0 then None else Some(Over(num(a), num(b)));
    assert ShowSum(Alone(times)) == ShowTerm(times) && ShowSum(Alone(over)) == ShowTerm(over);
    assert SumValue(num, Alone(times)) == TermValue(num, times) && SumValue(num, Alone(over)) == TermValue(num, over);
  }

  // ----- A closing parenthesis ends an expression just as the end of the text does -----

  ghost predicate Closing(t: string) { t != "" && t[0] == ')' }

  lemma {:induction false} SkipClosing(s: string, t: string)
    requires Closing(t)
    ensures Skip(s + t) == Skip(s) + t
  {
    if s == "" {
      assert s + t == t;
    } else {
      assert (s + t)[1..] == s[1..] + t;
      SkipClosing(s[1..], t);
    }
  }

  lemma {:induction false} NumeralClosing(s: string, t: string)
    requires Closing(t)
    ensures NumeralRun(s + t) == NumeralRun(s)
  {
    if s == "" {
      assert s + t == t;
    } else {
      assert (s + t)[1..] == s[1..] + t;
      NumeralClosing(s[1..], t);
    }
  }

  lemma {:induction false} SumClosing(num: string -> real, s: string, t: string)
    requires Closing(t) && Sum(num, s).Some?
    ensures var p := Sum(num, s).value; Sum(num, s + t) == Some(Parsed(p.value, p.rest + t))
    decreases |s|, 4
  {
    TermClosing(num, s, t);
    var p := Term(num, s).value;
    SumRestClosing(num, p.value, p.rest, t);
  }

  lemma {:induction false} SumRestClosing(num: string -> real, acc: real, s: string, t: string)
    requires Closing(t) && SumRest(num, acc, s).Some?
    ensures var p := SumRest(num, acc, s).value; SumRest(num, acc, s + t) == Some(Parsed(p.value, p.rest + t))
    decreases |s|, 3
  {
    hide Apply;
    SkipClosing(s, t);
    var u := Skip(s);
    if u != "" && (u[0] == '+' || u[0] == '-') {
      assert (u + t)[1..] == u[1..] + t;
      TermClosing(num, u[1..], t);
      var p := Term(num, u[1..]).value;
      SumRestClosing(num, Apply(u[0], acc, p.value), p.rest, t);
    }
  }

  lemma {:induction false} TermClosing(num: string -> real, s: string, t: string)
    requires Closing(t) && Term(num, s).Some?
    ensures var p := Term(num, s).value; Term(num, s + t) == Some(Parsed(p.value, p.rest + t))
    decreases |s|, 2
  {
    FactorClosing(num, s, t);
    var p := Factor(num, s).value;
    TermRestClosing(num, p.value, p.rest, t);
  }

  lemma {:induction false} TermRestClosing(num: string -> real, acc: real, s: string, t: string)
    requires Closing(t) && TermRest(num, acc, s).Some?
    ensures var p := TermRest(num, acc, s).value; TermRest(num, acc, s + t) == Some(Parsed(p.value, p.rest + t))
    decreases |s|, 1
  {
    hide Apply;
    SkipClosing(s, t);
    var u := Skip(s);
    if u != "" && (u[0] == '*' || u[0] == '/') {
      assert (u + t)[1..] == u[1..] + t;
      FactorClosing(num, u[1..], t);
      var p := Factor(num, u[1..]).value;
      TermRestClosing(num, Apply(u[0], acc, p.value), p.rest, t);
    }
  }

  lemma {:induction false} FactorClosing(num: string -> real, s: string, t: string)
    requires Closing(t) && Factor(num, s).Some?
    ensures var p := Factor(num, s).value; Factor(num, s + t) == Some(Parsed(p.value, p.rest + t))
    decreases |s|, 0
  {
    SkipClosing(s, t);
    var u := Skip(s);
    assert (u + t)[1..] == u[1..] + t;
    if u[0] == '(' {
      SumClosing(num, u[1..], t);
      var p := Sum(num, u[1..]).value;
      SkipClosing(p.rest, t);
      var w := Skip(p.rest);
      assert (w + t)[1..] == w[1..] + t;
    } else if u[0] == '-' || u[0] == '+' {
      FactorClosing(num, u[1..], t);
    } else {
      NumeralClosing(u, t);
      var n := NumeralRun(u);
      assert (u + t)[..n] == u[..n] && (u + t)[n..] == u[n..] + t;
    }
  }

  // ----- Sums of parenthesised expressions -----

  lemma GroupValue(num: string -> real, x: string, tail: string)
    requires Eval(num, x).Some?
    ensures Factor(num, "(" + x + ")" + tail) == Some(Parsed(Eval(num, x).value, tail))
  {
    var s := "(" + x + ")" + tail;
    var t := ")" + tail;
    assert Skip(s) == s && s[1..] == x + t;
    SumClosing(num, x, t);
    var p := Sum(num, x).value;
    SkipClosing(p.rest, t);
    assert "" + t == t && t[1..] == tail;
  }

  /** Further groups, each added to what precedes it. */
  function MoreGroups(xs: seq<string>): string {
    if xs == [] then "" else " + (" + xs[0] + ")" + MoreGroups(xs[1..])
  }

  ghost predicate Evaluate(num: string -> real, xs: seq<string>, vs: seq<real>) {
    |xs| == |vs| && forall i :: 0 <= i < |xs| ==> Eval(num, xs[i]) == Some(vs[i])
  }

  function Total(vs: seq<real>): real {
    if vs == [] then 0.0 else vs[0] + Total(vs[1..])
  }

  lemma GroupTerm(num: string -> real, x: string, xs: seq<string>)
    requires Eval(num, x).Some?
    ensures Term(num, "(" + x + ")" + MoreGroups(xs)) == Some(Parsed(Eval(num, x).value, MoreGroups(xs)))
  {
    var tail := MoreGroups(xs);
    GroupValue(num, x, tail);
    if xs != [] {
      assert tail[0] == ' ' && tail[1] == '+' && Skip(tail) == Skip(tail[1..]) == tail[1..];
    }
  }

  lemma {:induction false} MoreGroupsValue(num: string -> real, acc: real, xs: seq<string>, vs: seq<real>)
    requires Evaluate(num, xs, vs)
    ensures SumRest(num, acc, MoreGroups(xs)) == Some(Parsed(acc + Total(vs), ""))
    decreases |xs|
  {
    hide Factor, Term, Eval;
    var s := MoreGroups(xs);
    if xs != [] {
      assert Eval(num, xs[0]) == Some(vs[0]);
      var group := "(" + xs[0] + ")" + MoreGroups(xs[1..]);
      assert s == [' ', '+', ' '] + group;
      assert s[1..][0] == '+' && Skip(s) == Skip(s[1..]) == s[1..];
      assert s[1..][1..] == " " + group;
      GroupTerm(num, xs[0], xs[1..]);
      TermIgnoresBlank(num, group);
      assert forall i :: 0 <= i < |xs[1..]| ==> xs[1..][i] == xs[i + 1] && vs[1..][i] == vs[i + 1];
      MoreGroupsValue(num, acc + vs[0], xs[1..], vs[1..]);
    }
  }

  /** The first group and the further ones evaluate to the sum of all. */
  lemma GroupsSum(num: string -> real, xs: seq<string>, vs: seq<real>)
    requires xs != [] && Evaluate(num, xs, vs)
    ensures Eval(num, "(" + xs[0] + ")" + MoreGroups(xs[1..])) == Some(Total(vs))
  {
    assert Eval(num, xs[0]) == Some(vs[0]);
    GroupTerm(num, xs[0], xs[1..]);
    assert forall i :: 0 <= i < |xs[1..]| ==> xs[1..][i] == xs[i + 1] && vs[1..][i] == vs[i + 1];
    MoreGroupsValue(num, vs[0], xs[1..], vs[1..]);
  }
}
