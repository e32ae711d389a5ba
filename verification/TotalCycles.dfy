/**
 The total over all cpus of an expression over statistics of one cpu, such as the chip's busy cycles: for every
 number of cpus the references of the rewritten sum cannot be confused, so it is worth what the expression's
 values on the cpus add up to.
 */
module TotalCycles {
  import opened Wrappers
  import opened Decimal
  import opened Text
  import opened StatExpr
  import opened Arithmetic
  import opened CpuTotal
  import Template

  /** An expression's characters, and its statistics of one cpu by what stands before and behind "cpu.". */
  datatype Item = Char(c: char) | PerCpu(p: string, q: string)

  function Spelt(x: Item): string {
    match x
    case Char(c) => [c]
    case PerCpu(p, q) => "stats." + p + "cpu." + q
  }

  /** The template's expression. */
  function Written(items: seq<Item>): string {
    if items == [] then "" else Spelt(items[0]) + Written(items[1..])
  }

  /** The name of a statistic for cpu i. */
  function NameOf(p: string, q: string, i: nat): string {
    p + "cpu" + Digits(i) + "." + q
  }

  function NumberedItem(x: Item, i: nat): Piece {
    match x
    case Char(c) => Lit(c)
    case PerCpu(p, q) => Ref(NameOf(p, q, i))
  }

  /** The expression for cpu i. */
  function Numbered(items: seq<Item>, i: nat): seq<Piece> {
    if items == [] then [] else [NumberedItem(items[0], i)] + Numbered(items[1..], i)
  }

  // ----- What a template's author can check -----

  /** Of a statistic's name: "cpu." occurs once, "stats" not at all, and a letter follows the cpu. */
  ghost predicate Simple(p: string, q: string) {
    && (forall i :: 0 <= i < |p| ==> NameChar(p[i])) && (forall i :: 0 <= i < |q| ==> NameChar(q[i]))
    && q != "" && q[0] != '.' && !IsDigit(q[0])
    && !Contains(p + "cpu", "stats") && !Contains(q, "stats") && !Contains(q, "cpu.")
    && forall i :: 0 <= i < 6 + |p| ==> !StartsWith(("stats." + p + "cpu.")[i..], "cpu.")
  }

  /** Of an expression: neither word occurs between the statistics, which end where they should. */
  ghost predicate WellFormed(items: seq<Item>) {
    items != [] ==> FirstWellFormed(items) && WellFormed(items[1..])
  }

  ghost predicate FirstWellFormed(items: seq<Item>)
    requires items != []
  {
    match items[0]
    case Char(_) => !Worded(Written(items)) && !StartsWith(Written(items), "cpu.")
    case PerCpu(p, q) => Simple(p, q) && (|items| > 1 ==> items[1].Char? && !NameChar(items[1].c))
  }

  /** Something before the cpu's number tells p from p'. */
  predicate HeadApart(p: string, p': string) {
    exists k :: 0 <= k < |p| + 3 && k < |p'| + 3 && (p + "cpu")[k] != '.' && (p + "cpu")[k] != (p' + "cpu")[k]
  }

  /** Two statistics differ before the number, or only behind it. */
  ghost predicate Told(x: Item, y: Item) {
    x.PerCpu? && y.PerCpu? && x != y ==> HeadApart(x.p, y.p) || (x.p == y.p && Apart(x.q, y.q))
  }

  ghost predicate ToldApart(items: seq<Item>) {
    forall x, y :: x in items && y in items ==> Told(x, y)
  }

  // ----- The names of different cpus -----

  /** Two texts differ at some position, or one goes on where the other ends. */
  lemma {:induction false} Differ(a: string, b: string) returns (k: nat)
    requires a != b
    ensures k <= |a| && k <= |b| && a[..k] == b[..k]
    ensures k == |a| ==> k < |b|
    ensures k == |b| ==> k < |a|
    ensures k < |a| && k < |b| ==> a[k] != b[k]
  {
    if a == "" || b == "" || a[0] != b[0] {
      k := 0;
    } else {
      assert a == [a[0]] + a[1..] && b == [b[0]] + b[1..];
      var m := Differ(a[1..], b[1..]);
      k := m + 1;
      assert a[..k] == [a[0]] + a[1..][..m] && b[..k] == [b[0]] + b[1..][..m];
    }
  }

  ghost predicate AllDigits(d: string) {
    forall i :: 0 <= i < |d| ==> IsDigit(d[i])
  }

  /** The wildcard behind one number cannot bridge the further digits of another. */
  lemma NumbersApart(p: string, q: string, q': string, a: string, b: string)
    requires a != b && q != "" && q[0] != '.' && !IsDigit(q[0]) && AllDigits(a) && AllDigits(b)
    ensures Apart(p + "cpu" + a + "." + q, p + "cpu" + b + "." + q')
  {
    var k := Differ(a, b);
    var x, y := p + "cpu" + a + "." + q, p + "cpu" + b + "." + q';
    var m := |p| + 3;
    assert forall i :: 0 <= i < |a| ==> x[m + i] == a[i];
    assert forall i :: 0 <= i < |b| ==> y[m + i] == b[i];
    assert x[m + |a|] == '.' && y[m + |b|] == '.' && x[m + |a| + 1] == q[0];
    if k < |a| {
      assert x[m + k] != '.' && x[m + k] != y[m + k];
    } else {
      assert x[m + k + 1] != '.' && x[m + k + 1] != y[m + k + 1];
    }
  }

  lemma HeadsApart(p: string, p': string, a: string, b: string)
    requires HeadApart(p, p')
    ensures Apart(p + "cpu" + a, p' + "cpu" + b)
  {
    var x, y := p + "cpu", p' + "cpu";
    var k :| 0 <= k < |p| + 3 && k < |p'| + 3 && x[k] != '.' && x[k] != y[k];
    assert (x + a)[k] == x[k] && (y + b)[k] == y[k];
  }

  lemma TailsApart(h: string, q: string, q': string)
    requires Apart(q, q')
    ensures Apart(h + q, h + q')
  {
    var k :| 0 <= k < |q| && k <= |q'| && q[k] != '.' && (k == |q'| || q[k] != q'[k]);
    var m := |h| + k;
    assert (h + q)[m] == q[k] && (k < |q'| ==> (h + q')[m] == q'[k]);
  }

  lemma NamesApart(x: Item, y: Item, i: nat, j: nat)
    requires x.PerCpu? && y.PerCpu? && Simple(x.p, x.q) && Told(x, y)
    requires NameOf(x.p, x.q, i) != NameOf(y.p, y.q, j)
    ensures Apart(NameOf(x.p, x.q, i), NameOf(y.p, y.q, j))
  {
    hide Contains, Digits, Apart;
    var a, b := Digits(i), Digits(j);
    if x != y && HeadApart(x.p, y.p) {
      HeadsApart(x.p, y.p, a + "." + x.q, b + "." + y.q);
      assert x.p + "cpu" + (a + "." + x.q) == NameOf(x.p, x.q, i) && y.p + "cpu" + (b + "." + y.q) == NameOf(y.p, y.q, j);
    } else if a == b {
      TailsApart(x.p + "cpu" + a + ".", x.q, y.q);
    } else {
      NumbersApart(x.p, x.q, y.q, a, b);
    }
  }

  // ----- Each cpu's expression -----

  lemma CpuNameQuiet(p: string, q: string, i: nat)
    requires Simple(p, q)
    ensures QuietName(NameOf(p, q, i))
  {
    var d, name := Digits(i), NameOf(p, q, i);
    NoStatsInside(p, q, d);
    hide Contains, Digits;
    assert forall k :: 0 <= k < |d| ==> NameChar(d[k]);
  }

  /** An occurrence in a name lies before the number or behind it. */
  lemma StatsBesides(a: string, q: string, d: string, k: nat)
    requires d != "" && AllDigits(d)
    requires k <= |a + d + "." + q| && StartsWith((a + d + "." + q)[k..], "stats")
    ensures Contains(a, "stats") || Contains(q, "stats")
  {
    var s := a + d + "." + q;
    assert forall i :: |a| <= i <= |a| + |d| ==> !Letter(s[i]);
    assert forall i :: 0 <= i < 5 ==> Letter("stats"[i]);
    WordOutside(s, "stats", k, |a|, |a| + |d|);
    if k + 5 <= |a| {
      assert StartsWith(a[k..], s[k..][..5]);
    } else {
      assert StartsWith(q[k - |a| - |d| - 1..], s[k..][..5]);
    }
  }

  lemma NoStatsInside(p: string, q: string, d: string)
    requires d != "" && AllDigits(d)
    requires !Contains(p + "cpu", "stats") && !Contains(q, "stats")
    ensures !Contains(p + "cpu" + d + "." + q, "stats")
  {
    var s := p + "cpu" + d + "." + q;
    if Contains(s, "stats") {
      var k: nat :| k <= |s| && StartsWith(s[k..], "stats");
      StatsBesides(p + "cpu", q, d, k);
    }
  }

  predicate Letter(c: char) { 'a' <= c <= 'z' }

  /** A word of letters lies before or behind a stretch without any. */
  lemma WordOutside(s: string, w: string, k: nat, first: nat, last: nat)
    requires w != "" && k <= |s| && StartsWith(s[k..], w) && (forall i :: 0 <= i < |w| ==> Letter(w[i]))
    requires first <= last < |s| && (forall i :: first <= i <= last ==> !Letter(s[i]))
    ensures k + |w| <= first || k > last
  {
    WordAt(s, w, k);
    var m := if k < first then first else k;
    assert m < k + |w| ==> s[m] == w[m - k];
  }

  lemma WordAt(s: string, w: string, k: nat)
    requires k <= |s| && StartsWith(s[k..], w)
    ensures k + |w| <= |s| && forall i :: k <= i < k + |w| ==> s[i] == w[i - k]
  {
    assert forall i :: 0 <= i < |w| ==> s[k..][..|w|][i] == s[k + i];
  }

  lemma NumberedAt(items: seq<Item>, i: nat)
    requires items != []
    ensures Numbered(items, i) != [] && Numbered(items, i)[0] == NumberedItem(items[0], i)
    ensures Numbered(items, i)[1..] == Numbered(items[1..], i)
  {
  }

  /** Numbering is not seen by a look at up to six characters from outside a statistic. */
  lemma {:induction false} SameBeginning(items: seq<Item>, i: nat, w: string)
    requires |w| <= 6
    ensures StartsWith(Written(items), w) <==> StartsWith(Flatten(Numbered(items, i)), w)
    decreases |items|
  {
    if items != [] && w != "" {
      NumberedAt(items, i);
      hide Numbered, NameOf, StartsWith;
      var a, b := Written(items[1..]), Flatten(Numbered(items[1..], i));
      match items[0]
      case Char(c) =>
        SameBeginning(items[1..], i, w[1..]);
        FirstThenRest(c, a, w);
        FirstThenRest(c, b, w);
      case PerCpu(p, q) =>
        SameSix(Spelt(items[0]), Flat(NumberedItem(items[0], i)), a, b, w);
    }
  }

  lemma FirstThenRest(c: char, s: string, w: string)
    requires w != ""
    ensures StartsWith([c] + s, w) <==> c == w[0] && StartsWith(s, w[1..])
  {
    var t := [c] + s;
    if |w| <= |t| {
      assert t[..|w|] == [c] + s[..|w| - 1] && w == [w[0]] + w[1..];
      assert t[..|w|][0] == c && t[..|w|][1..] == s[..|w| - 1];
    }
  }

  lemma SameSix(x: string, y: string, a: string, b: string, w: string)
    requires |w| <= 6 <= |x| && 6 <= |y| && x[..6] == y[..6]
    ensures StartsWith(x + a, w) <==> StartsWith(y + b, w)
  {
    assert (x + a)[..|w|] == x[..6][..|w|] && (y + b)[..|w|] == y[..6][..|w|];
  }

  lemma {:induction false} NumberedQuiet(items: seq<Item>, i: nat)
    requires WellFormed(items)
    ensures Quiet(Numbered(items, i))
    decreases |items|
  {
    if items != [] {
      NumberedQuiet(items[1..], i);
      NumberedAt(items, i);
      SameBeginning(items, i, "stats");
      if |items| > 1 {
        NumberedAt(items[1..], i);
      }
      hide Numbered, Simple, NameOf, Quiet, WellFormed, Written, StartsWith;
      var ps := Numbered(items, i);
      assert |ps| > 1 ==> |items| > 1 by { SameLength(items, i); }
      match items[0]
      case Char(_) =>
        assert QuietFirst(ps);
      case PerCpu(p, q) =>
        CpuNameQuiet(p, q, i);
        assert |ps| > 1 ==> ps[1] == ps[1..][0];
        assert QuietFirst(ps);
    }
  }

  lemma {:induction false} SameLength(items: seq<Item>, i: nat)
    ensures |Numbered(items, i)| == |items|
  {
    if items != [] {
      SameLength(items[1..], i);
    }
  }

  lemma {:induction false} NumberedRefs(items: seq<Item>, i: nat)
    ensures forall r :: r in Numbered(items, i) && r.Ref? ==>
              exists x :: x in items && x.PerCpu? && r.name == NameOf(x.p, x.q, i)
  {
    if items != [] {
      NumberedRefs(items[1..], i);
      assert items == [items[0]] + items[1..];
      forall r | r in Numbered(items, i) && r.Ref?
        ensures exists x :: x in items && x.PerCpu? && r.name == NameOf(x.p, x.q, i)
      {
        if r in Numbered(items[1..], i) {
          var x :| x in items[1..] && x.PerCpu? && r.name == NameOf(x.p, x.q, i);
          assert x in items;
        } else {
          assert items[0] in items;
        }
      }
    }
  }

  // ----- The rewriting -----

  lemma {:induction false} ReplacePast(t: string, what: string, with: string, rest: string)
    requires what != "" && forall i :: 0 <= i < |t| ==> !StartsWith((t + rest)[i..], what)
    ensures Replace(t + rest, what, with) == t + Replace(rest, what, with)
    decreases |t|
  {
    var s := t + rest;
    if t == "" {
      assert s == rest;
    } else {
      assert s[0..] == s && s[1..] == t[1..] + rest;
      forall i | 0 <= i < |t[1..]| ensures !StartsWith((t[1..] + rest)[i..], what) {
        assert (t[1..] + rest)[i..] == s[i + 1..];
      }
      ReplacePast(t[1..], what, with, rest);
    }
  }

  /** No occurrence begins in q: it would have to go on behind it, with a character no name has. */
  lemma NoneFrom(q: string, rest: string, w: string)
    requires !Contains(q, w) && (forall i :: 0 <= i < |w| ==> NameChar(w[i]))
    requires rest != "" ==> !NameChar(rest[0])
    ensures forall i :: 0 <= i < |q| ==> !StartsWith((q + rest)[i..], w)
  {
    forall i | 0 <= i < |q| ensures !StartsWith((q + rest)[i..], w) {
      if StartsWith((q + rest)[i..], w) {
        WordEndsInside(q, rest, w, i);
      }
    }
  }

  lemma WordEndsInside(q: string, rest: string, w: string, i: nat)
    requires i < |q| && StartsWith((q + rest)[i..], w) && (forall k :: 0 <= k < |w| ==> NameChar(w[k]))
    requires rest != "" ==> !NameChar(rest[0])
    ensures Contains(q, w)
  {
    var s := q + rest;
    WordAt(s, w, i);
    assert forall k :: i <= k < i + |w| ==> NameChar(s[k]);
    assert |q| < |s| ==> !NameChar(s[|q|]);
    assert q[i..][..|w|] == s[i..][..|w|];
    assert StartsWith(q[i..], w);
  }

  lemma EarlyOnly(h: string, more: string, w: string, n: nat)
    requires n + |w| <= |h| + 1 && forall i :: 0 <= i < n ==> !StartsWith(h[i..], w)
    ensures forall i :: 0 <= i < n ==> !StartsWith((h + more)[i..], w)
  {
    forall i | 0 <= i < n ensures !StartsWith((h + more)[i..], w) {
      assert (h + more)[i..][..|w|] == h[i..][..|w|];
    }
  }

  lemma StatisticRewritten(p: string, q: string, i: nat, rest: string)
    requires Simple(p, q) && (rest != "" ==> !NameChar(rest[0]))
    ensures Replace("stats." + p + "cpu." + q + rest, "cpu.", "cpu" + Digits(i) + ".") ==
            "stats." + NameOf(p, q, i) + Replace(rest, "cpu.", "cpu" + Digits(i) + ".")
  {
    hide Replace, Contains, Digits;
    var a, with := "stats." + p, "cpu" + Digits(i) + ".";
    assert forall k :: 0 <= k < 4 ==> NameChar("cpu."[k]);
    ReplaceThrough(a, "cpu.", with, q, rest);
    assert a + with + q == "stats." + NameOf(p, q, i);
  }

  lemma ReplaceThrough(a: string, what: string, with: string, q: string, rest: string)
    requires what != "" && forall i :: 0 <= i < |what| ==> NameChar(what[i])
    requires forall i :: 0 <= i < |a| ==> !StartsWith((a + what)[i..], what)
    requires !Contains(q, what) && (rest != "" ==> !NameChar(rest[0]))
    ensures Replace(a + what + q + rest, what, with) == a + with + q + Replace(rest, what, with)
  {
    hide Replace, Contains, NameChar;
    EarlyOnly(a + what, q + rest, what, |a|);
    assert a + what + (q + rest) == a + what + q + rest;
    NoneFrom(q, rest, what);
    ReplaceFirst(a, what, with, q + rest);
    ReplacePast(q, what, with, rest);
    var more := Replace(rest, what, with);
    assert a + with + (q + more) == a + with + q + more;
  }

  /** The script's rewriting for one cpu numbers the statistics and changes nothing else. */
  lemma {:induction false} Rewritten(items: seq<Item>, i: nat)
    requires WellFormed(items)
    ensures ForCpu(Written(items), i) == Flatten(Numbered(items, i))
    decreases |items|
  {
    if items != [] {
      Rewritten(items[1..], i);
      NumberedAt(items, i);
      var rest := Written(items[1..]);
      match items[0]
      case Char(c) =>
        assert Written(items)[1..] == rest && Written(items) != "";
        hide Numbered, ToString;
      case PerCpu(p, q) =>
        if |items| > 1 {
          assert items[1..][0] == items[1];
        }
        hide Numbered, Simple, Replace, NameOf;
        StatisticRewritten(p, q, i, rest);
    }
  }

  lemma CpuText(items: seq<Item>, i: nat)
    requires WellFormed(items)
    ensures var x := ForCpu(Written(items), i);
            Tokenize(x) == Numbered(items, i) && QuietText(x)
  {
    hide Tokenize, Numbered, ForCpu, Quiet, QuietText, WellFormed;
    Rewritten(items, i);
    NumberedQuiet(items, i);
    TokenizeFlatten(Numbered(items, i));
    TokenizeQuiet(ForCpu(Written(items), i));
  }

  // ----- The sum -----

  /** Quiet text that refers to the names ns only. */
  ghost predicate Only(s: string, ns: set<string>) {
    QuietText(s) && forall r :: r in Tokenize(s) && r.Ref? ==> r.name in ns
  }

  lemma OnlySplit(a: string, c: char, b: string, ns: set<string>)
    requires !NameChar(c) && Only(a, ns) && Only(b, ns)
    ensures Only(a + [c] + b, ns)
  {
    hide Tokenize, QuietText, NameChar;
    TokenizeSplit(a, c, b);
    QuietSplit(a, c, b);
  }

  lemma OnlyNone(ns: set<string>)
    ensures Only("", ns)
  {
  }

  lemma OnlyGroup(x: string, rest: string, ns: set<string>)
    requires Only(x, ns) && Only(rest, ns)
    ensures Only("(" + x + ")" + rest, ns)
  {
    hide Only;
    assert "(" + x + ")" + rest == "" + ['('] + (x + [')'] + rest);
    OnlyNone(ns);
    OnlySplit(x, ')', rest, ns);
    OnlySplit("", '(', x + [')'] + rest, ns);
  }

  lemma OnlyPlus(rest: string, ns: set<string>)
    requires Only(rest, ns)
    ensures Only(" + " + rest, ns)
  {
    hide Only;
    var s := "" + [' '] + rest;
    assert " + " + rest == "" + [' '] + ("" + ['+'] + s);
    OnlyNone(ns);
    OnlySplit("", ' ', rest, ns);
    OnlySplit("", '+', s, ns);
    OnlySplit("", ' ', "" + ['+'] + s, ns);
  }

  lemma {:induction false} OnlyMore(xs: seq<string>, ns: set<string>)
    requires forall x :: x in xs ==> Only(x, ns)
    ensures Only(MoreGroups(xs), ns)
    decreases |xs|
  {
    hide Only;
    if xs == [] {
      OnlyNone(ns);
    } else {
      assert xs[0] in xs;
      OnlyMore(xs[1..], ns);
      var group := "(" + xs[0] + ")" + MoreGroups(xs[1..]);
      OnlyGroup(xs[0], MoreGroups(xs[1..]), ns);
      OnlyPlus(group, ns);
      assert MoreGroups(xs) == " + " + group;
    }
  }

  /** The names the sum over n cpus refers to. */
  ghost function AllNames(items: seq<Item>, n: nat): set<string> {
    set x, i: nat | x in items && x.PerCpu? && i < n :: NameOf(x.p, x.q, i)
  }

  lemma SummandOnly(items: seq<Item>, n: nat, i: nat)
    requires WellFormed(items) && i < n
    ensures Only(ForCpu(Written(items), i), AllNames(items, n))
  {
    hide Tokenize, QuietText, ForCpu, NameOf, WellFormed, Numbered;
    CpuText(items, i);
    NumberedRefs(items, i);
  }

  lemma SumOnly(items: seq<Item>, n: nat)
    requires n > 0 && WellFormed(items)
    ensures Only(Template.SumOverCpus(Written(items), n), AllNames(items, n))
  {
    hide Only, WellFormed, AllNames, MoreGroups, Template.SumOverCpus, ForCpu;
    var v, ns := Written(items), AllNames(items, n);
    var xs := Summands(v, n);
    SumIsGroups(v, n);
    forall x | x in xs ensures Only(x, ns) {
      var i :| 0 <= i < n && x == xs[i];
      SummandOnly(items, n, i);
    }
    assert xs[0] in xs;
    OnlyMore(xs[1..], ns);
    OnlyGroup(xs[0], MoreGroups(xs[1..]), ns);
  }

  lemma {:induction false} AllSimple(items: seq<Item>)
    requires WellFormed(items)
    ensures forall x :: x in items && x.PerCpu? ==> Simple(x.p, x.q)
  {
    if items != [] {
      hide Simple;
      AllSimple(items[1..]);
      assert items == [items[0]] + items[1..];
    }
  }

  lemma AllApart(items: seq<Item>, n: nat)
    requires WellFormed(items) && ToldApart(items)
    ensures forall a, b :: a in AllNames(items, n) && b in AllNames(items, n) && a != b ==> Apart(a, b)
  {
    hide Apart, Simple, NameOf, WellFormed, Told;
    AllSimple(items);
    forall a, b | a in AllNames(items, n) && b in AllNames(items, n) && a != b
      ensures Apart(a, b)
    {
      var x, i: nat :| x in items && x.PerCpu? && i < n && a == NameOf(x.p, x.q, i);
      var y, j: nat :| y in items && y.PerCpu? && j < n && b == NameOf(y.p, y.q, j);
      NamesApart(x, y, i, j);
    }
  }

  lemma SafeFromNames(stats: Stats, s: string, ns: set<string>)
    requires Only(s, ns) && forall a, b :: a in ns && b in ns && a != b ==> Apart(a, b)
    requires forall a :: a in ns && Resolve(stats, a).Some? ==> QuietValue(Resolve(stats, a).value)
    ensures SafeExpression(stats, s)
  {
    hide Resolve, Apart, Tokenize, QuietValue, QuietText;
    var ps := Tokenize(s);
    NamesOf(ps);
    forall k | 0 <= k < |Names(ps)| ensures Names(ps)[k] in ns {
      assert Names(ps)[k] in Names(ps);
      assert Ref(Names(ps)[k]) in ps;
    }
  }

  /** For any number of cpus. */
  lemma SumIsSafe(stats: Stats, items: seq<Item>, n: nat)
    requires n > 0 && WellFormed(items) && ToldApart(items)
    requires forall a :: a in AllNames(items, n) && Resolve(stats, a).Some? ==> QuietValue(Resolve(stats, a).value)
    ensures SafeExpression(stats, Template.SumOverCpus(Written(items), n))
  {
    hide Resolve, Apart, QuietValue, Only, WellFormed, AllNames, SafeExpression, ToldApart, Template.SumOverCpus;
    SumOnly(items, n);
    AllApart(items, n);
    SafeFromNames(stats, Template.SumOverCpus(Written(items), n), AllNames(items, n));
  }

  /** The sum McPAT is given is the sum of the expression's values over all cpus, however many there are. */
  lemma TotalOfExpression(stats: Stats, num: string -> real, items: seq<Item>, n: nat, vs: seq<real>)
    requires n > 0 && |vs| == n && WellFormed(items) && ToldApart(items)
    requires forall a :: a in AllNames(items, n) && Resolve(stats, a).Some? ==> QuietValue(Resolve(stats, a).value)
    requires forall i: nat :: i < n ==> Eval(num, Simultaneous(stats, Numbered(items, i))) == Some(vs[i])
    ensures var s := Template.SumOverCpus(Written(items), n);
            Eval(num, Sequential(stats, Names(Tokenize(s)), s)) == Some(Total(vs))
  {
    hide Resolve, QuietValue, WellFormed, AllNames, SafeExpression, ToldApart, Template.SumOverCpus, Eval, Tokenize,
         Simultaneous, Numbered, ForCpu, Clean, Sequential, Names, QuietText, Written;
    var s := Template.SumOverCpus(Written(items), n);
    SumIsSafe(stats, items, n);
    SafeIsClean(stats, s);
    forall i: nat | i < n
      ensures Filled(stats, ForCpu(Written(items), i)) == Simultaneous(stats, Numbered(items, i))
    {
      CpuText(items, i);
    }
    TotalOverCpus(stats, num, Written(items), n, vs);
  }

  // ----- A single statistic -----

  lemma OneStatistic(p: string, q: string, n: nat)
    requires Simple(p, q)
    ensures var items := [PerCpu(p, q)];
            && WellFormed(items) && ToldApart(items) && Written(items) == "stats." + p + "cpu." + q
            && forall a :: a in AllNames(items, n) ==> exists i: nat :: i < n && a == NameOf(p, q, i)
  {
    hide Simple;
    var items := [PerCpu(p, q)];
    assert items[1..] == [];
    assert forall x :: x in items ==> x == items[0];
    assert Written(items) == "stats." + p + "cpu." + q + "";
  }

  lemma TotalOfStatistic(stats: Stats, num: string -> real, p: string, q: string, n: nat, vs: seq<real>)
    requires n > 0 && |vs| == n && Simple(p, q)
    requires forall i: nat :: i < n ==>
               var v := Resolve(stats, NameOf(p, q, i));
               v.Some? && QuietValue(v.value) && Eval(num, v.value) == Some(vs[i])
    ensures var s := Template.SumOverCpus("stats." + p + "cpu." + q, n);
            Eval(num, Sequential(stats, Names(Tokenize(s)), s)) == Some(Total(vs))
  {
    hide Simple, Resolve, Eval, NameOf, Tokenize, Template.SumOverCpus, QuietValue, WellFormed, ToldApart, AllNames,
         Written, Sequential, Names, Simultaneous;
    var items := [PerCpu(p, q)];
    OneStatistic(p, q, n);
    forall i: nat | i < n
      ensures Simultaneous(stats, Numbered(items, i)) == Resolve(stats, NameOf(p, q, i)).value
    {
      assert items[1..] == [] && Numbered(items, i) == [Ref(NameOf(p, q, i))];
      SimultaneousOne(stats, Ref(NameOf(p, q, i)));
    }
    TotalOfExpression(stats, num, items, n, vs);
  }

  /** With one cpu, which the statistics do not number, it is the unnumbered statistic. */
  lemma TotalOfSingleCpu(stats: Stats, num: string -> real, r: string, q: string, x: real)
    requires Simple(r + ".", q) && Parted([r, q], ".cpu0.")
    requires r + ".cpu0." + q !in stats && r + ".cpu." + q in stats
    requires QuietValue(stats[r + ".cpu." + q]) && Eval(num, stats[r + ".cpu." + q]) == Some(x)
    ensures var s := Template.SumOverCpus("stats." + r + ".cpu." + q, 1);
            Eval(num, Sequential(stats, Names(Tokenize(s)), s)) == Some(x)
  {
    hide Simple, Eval, Tokenize, Template.SumOverCpus, Sequential, Names, Resolve, Contains, Parted, QuietValue;
    assert [r, q][1..] == [q];
    assert Glue([r, q], ".cpu0.") == r + ".cpu0." + q && Glue([r, q], ".cpu.") == r + ".cpu." + q;
    SingleCpuFallback(stats, [r, q]);
    assert Digits(0) == "0";
    assert NameOf(r + ".", q, 0) == r + ".cpu0." + q;
    TotalOfStatistic(stats, num, r + ".", q, 1, [x]);
    assert "stats." + (r + ".") + "cpu." + q == "stats." + r + ".cpu." + q;
    assert [x][1..] == [];
  }

  // ----- The busy cycles of the shipped template -----

  lemma PlainName(p: string, q: string)
    requires (forall i :: 0 <= i < |p| ==> NameChar(p[i])) && (forall i :: 0 <= i < |q| ==> NameChar(q[i]))
    requires q != "" && !IsDigit(q[0]) && 'a' !in p && 'c' !in p && 'a' !in q && '.' !in q
    ensures Simple(p, q)
  {
    assert q[0] in q;
    NeedsChar(p + "cpu", "stats", "stats"[2]);
    NeedsChar(q, "stats", "stats"[2]);
    NeedsChar(q, "cpu.", "cpu."[3]);
    var s := "stats." + p + "cpu.";
    forall i | 0 <= i < 6 + |p|
      ensures !StartsWith(s[i..], "cpu.")
    {
      assert s[i] == ("stats." + p)[i] != 'c';
      assert |s[i..]| >= 4 ==> s[i..][..4][0] == s[i];
    }
  }

  /** stats.system.cpu.numCycles - stats.system.cpu.idleCycles */
  function BusyCycles(): seq<Item> {
    [PerCpu("system.", "numCycles"), Char(' '), Char('-'), Char(' '), PerCpu("system.", "idleCycles")]
  }

  lemma BusyCyclesWellFormed()
    ensures WellFormed(BusyCycles()) && ToldApart(BusyCycles())
  {
    PlainName("system.", "numCycles");
    PlainName("system.", "idleCycles");
    assert "numCycles"[0] == 'n' && "idleCycles"[0] == 'i';
    hide Simple, WellFormed, ToldApart;
    DifferenceWellFormed("system.", "numCycles", "idleCycles");
  }

  lemma DifferenceWritten(p: string, q: string, q': string)
    ensures Written([PerCpu(p, q), Char(' '), Char('-'), Char(' '), PerCpu(p, q')]) ==
            "stats." + p + "cpu." + q + " - " + ("stats." + p + "cpu." + q')
  {
    var a, b := PerCpu(p, q), PerCpu(p, q');
    var x := Spelt(b);
    hide Spelt;
    var rest := [Char(' '), Char('-'), Char(' '), b];
    assert [b][1..] == [] && x + "" == x && Written([b]) == x;
    assert rest[1..][1..][1..] == [b] && Written(rest[1..][1..]) == Spelt(Char(' ')) + x;
    assert Written(rest) == Spelt(Char(' ')) + (Spelt(Char('-')) + (Spelt(Char(' ')) + x));
    var all := [a, Char(' '), Char('-'), Char(' '), b];
    assert all[1..] == rest && Written(all) == Spelt(a) + Written(rest);
    SpeltSigns();
    assert " " + ("-" + (" " + x)) == " - " + x;
    assert Spelt(a) + (" - " + x) == Spelt(a) + " - " + x;
    SpeltStatistic(p, q);
    SpeltStatistic(p, q');
  }

  lemma SpeltStatistic(p: string, q: string)
    ensures Spelt(PerCpu(p, q)) == "stats." + p + "cpu." + q
  {
  }

  lemma SpeltSigns()
    ensures Spelt(Char(' ')) == " " && Spelt(Char('-')) == "-"
  {
  }

  /** The difference of two statistics of one prefix. */
  lemma DifferenceWellFormed(p: string, q: string, q': string)
    requires Simple(p, q) && Simple(p, q') && Apart(q, q') && Apart(q', q)
    ensures var items := [PerCpu(p, q), Char(' '), Char('-'), Char(' '), PerCpu(p, q')];
            WellFormed(items) && ToldApart(items)
  {
    hide Simple, Apart;
    var a, b := PerCpu(p, q), PerCpu(p, q');
    var items := [a, Char(' '), Char('-'), Char(' '), b];
    assert [b][1..] == [] && WellFormed([]) && WellFormed([b]);
    hide Written, Worded, StartsWith;
    SignWellFormed(' ', [b]);
    SignWellFormed('-', [Char(' '), b]);
    SignWellFormed(' ', [Char('-'), Char(' '), b]);
    assert items[1..] == [Char(' ')] + [Char('-'), Char(' '), b];
    assert [Char('-'), Char(' '), b] == [Char('-')] + [Char(' '), b] && [Char(' '), b] == [Char(' ')] + [b];
    assert FirstWellFormed(items) && WellFormed(items);
    assert forall x :: x in items && x.PerCpu? ==> x == a || x == b;
  }

  lemma SignWellFormed(c: char, items: seq<Item>)
    requires WellFormed(items) && !NameChar(c)
    ensures WellFormed([Char(c)] + items)
  {
    var all := [Char(c)] + items;
    assert all[1..] == items;
    var s := Written(all);
    assert s[0] == c && (|s| >= 5 ==> s[..5][0] == c) && (|s| >= 4 ==> s[..4][0] == c);
    assert "stats"[0] != c && "cpu."[0] != c;
  }

  lemma NumeralIsQuiet(v: string)
    requires SoundOperand(Numeral(v))
    ensures QuietValue(v)
  {
    assert v[0] != 't' && v[0] != 'a';
    forall c | c in v ensures NumeralChar(c) { }
  }

  lemma {:induction false} SimultaneousSigns(stats: Stats, signs: string, rest: seq<Piece>)
    ensures Simultaneous(stats, Lits(signs) + rest) == signs + Simultaneous(stats, rest)
  {
    SimultaneousConcat(stats, Lits(signs), rest);
    SimultaneousLits(stats, signs);
  }

  lemma DifferenceFilled(stats: Stats, p: string, q: string, q': string, i: nat)
    requires Resolve(stats, NameOf(p, q, i)).Some? && Resolve(stats, NameOf(p, q', i)).Some?
    ensures Simultaneous(stats, Numbered([PerCpu(p, q), Char(' '), Char('-'), Char(' '), PerCpu(p, q')], i)) ==
            Resolve(stats, NameOf(p, q, i)).value + " - " + Resolve(stats, NameOf(p, q', i)).value
  {
    hide Resolve, NameOf, Simultaneous;
    var a, b := PerCpu(p, q), PerCpu(p, q');
    var items := [a, Char(' '), Char('-'), Char(' '), b];
    var x, y := Ref(NameOf(p, q, i)), Ref(NameOf(p, q', i));
    NumberedAt(items, i);
    NumberedAt(items[1..], i);
    NumberedAt(items[1..][1..], i);
    NumberedAt(items[1..][1..][1..], i);
    NumberedAt([b], i);
    assert items[1..][1..][1..][1..] == [b] && [b][1..] == [] && Numbered([b], i) == [y];
    hide Numbered;
    var ps := Numbered(items, i);
    assert ps[1..][1..][1..][1..] == [y];
    assert ps == [x] + (Lits(" - ") + [y]);
    SimultaneousConcat(stats, [x], Lits(" - ") + [y]);
    SimultaneousSigns(stats, " - ", [y]);
    SimultaneousOne(stats, x);
    SimultaneousOne(stats, y);
  }

  /** The total of a difference, such as the busy cycles, is the sum of the differences on the cpus. */
  lemma TotalOfDifference(stats: Stats, num: string -> real, p: string, q: string, q': string, n: nat, vs: seq<real>)
    requires n > 0 && |vs| == n && Simple(p, q) && Simple(p, q') && Apart(q, q') && Apart(q', q)
    requires forall i: nat :: i < n ==>
               var x, y := Resolve(stats, NameOf(p, q, i)), Resolve(stats, NameOf(p, q', i));
               && x.Some? && y.Some? && SoundOperand(Numeral(x.value)) && SoundOperand(Numeral(y.value))
               && vs[i] == num(x.value) - num(y.value)
    ensures var s := Template.SumOverCpus("stats." + p + "cpu." + q + " - " + ("stats." + p + "cpu." + q'), n);
            Eval(num, Sequential(stats, Names(Tokenize(s)), s)) == Some(Total(vs))
  {
    hide Simple, Apart, Resolve, SoundOperand, Eval, NameOf, Tokenize, Sequential, Names, Template.SumOverCpus, WellFormed,
         ToldApart, Written, Numbered, Simultaneous, QuietValue;
    var items := [PerCpu(p, q), Char(' '), Char('-'), Char(' '), PerCpu(p, q')];
    DifferenceWritten(p, q, q');
    DifferenceWellFormed(p, q, q');
    forall a | a in AllNames(items, n) && Resolve(stats, a).Some?
      ensures QuietValue(Resolve(stats, a).value)
    {
      var x, i: nat :| x in items && x.PerCpu? && i < n && a == NameOf(x.p, x.q, i);
      NumeralIsQuiet(Resolve(stats, a).value);
    }
    forall i: nat | i < n
      ensures Eval(num, Simultaneous(stats, Numbered(items, i))) == Some(vs[i])
    {
      var x, y := Resolve(stats, NameOf(p, q, i)), Resolve(stats, NameOf(p, q', i));
      DifferenceFilled(stats, p, q, q', i);
      Operations(num, x.value, y.value, y.value);
    }
    TotalOfExpression(stats, num, items, n, vs);
  }

  lemma BusyCyclesTotal(stats: Stats, num: string -> real, n: nat, vs: seq<real>)
    requires n > 0 && |vs| == n
    requires forall i: nat :: i < n ==>
               var x, y := Resolve(stats, NameOf("system.", "numCycles", i)), Resolve(stats, NameOf("system.", "idleCycles", i));
               && x.Some? && y.Some? && SoundOperand(Numeral(x.value)) && SoundOperand(Numeral(y.value))
               && vs[i] == num(x.value) - num(y.value)
    ensures var s := Template.SumOverCpus(Written(BusyCycles()), n);
            Eval(num, Sequential(stats, Names(Tokenize(s)), s)) == Some(Total(vs))
  {
    PlainName("system.", "numCycles");
    PlainName("system.", "idleCycles");
    assert "numCycles"[0] == 'n' && "idleCycles"[0] == 'i';
    hide Simple, Resolve, SoundOperand, Eval, NameOf, Tokenize, Sequential, Names, Template.SumOverCpus, Written, Total;
    DifferenceWritten("system.", "numCycles", "idleCycles");
    TotalOfDifference(stats, num, "system.", "numCycles", "idleCycles", n, vs);
  }

  /** That two names are told apart before they are numbered is not enough: a number can look like a name. */
  lemma NumberingConfuses()
    ensures Apart("cpu.p", "cpu1cpu.y") && Apart("cpu1cpu.y", "cpu.p")
    ensures !Apart(NameOf("", "p", 1), NameOf("cpu1", "y", 0))
  {
    var a, b := "cpu.p", "cpu1cpu.y";
    assert a[4] == 'p' && b[4] == 'c' && b[3] == '1' && a[3] == '.';
    assert Digits(1) == "1" && Digits(0) == "0";
    var x, y := NameOf("", "p", 1), NameOf("cpu1", "y", 0);
    assert x == "cpu1.p" && y == "cpu1cpu0.y";
    assert x[0] == y[0] && x[1] == y[1] && x[2] == y[2] && x[3] == y[3] && x[4] == '.' && x[5] == y[5];
  }
}
