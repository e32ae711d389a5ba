/**
 The chip-wide totals, end to end: the expander rewrites an expression for one cpu into a sum over all of
 them, the statistics are substituted into it, and the result is evaluated.
 */
module CpuTotal {
  import opened Wrappers
  import opened Decimal
  import opened Text
  import opened StatExpr
  import opened Arithmetic
  import Template

  function Filled(stats: Stats, s: string): string {
    Simultaneous(stats, Tokenize(s))
  }

  /** A character that cannot belong to a name cuts the text into independent parts. */
  lemma {:induction false} TokenizeSplit(a: string, c: char, b: string)
    requires !NameChar(c)
    ensures Tokenize(a + [c] + b) == Tokenize(a) + [Lit(c)] + Tokenize(b)
    decreases |a|
  {
    hide RefLength, NameChar, Tokenize;
    var s := a + [c] + b;
    if a == "" {
      assert s == [c] + b && s[1..] == b;
      TokenizeHead(s);
      assert Tokenize("") == [] by { TokenizeEmpty(); }
      assert [] + [Lit(c)] == [Lit(c)];
    } else {
      RefSplit(a, c, b);
      var t := [c] + b;
      assert s == a + t;
      var k, first := FirstPiece(a, t);
      assert a[k..] + t == a[k..] + [c] + b;
      TokenizeSplit(a[k..], c, b);
      var x := Tokenize(a[k..]);
      assert first + (x + [Lit(c)] + Tokenize(b)) == first + x + [Lit(c)] + Tokenize(b);
    }
  }

  /** The piece a begins with, and how long it is, if what follows a does not prolong it. */
  lemma FirstPiece(a: string, t: string) returns (k: nat, first: seq<Piece>)
    requires a != "" && RefLength(a + t) == RefLength(a)
    ensures 0 < k <= |a|
    ensures Tokenize(a) == first + Tokenize(a[k..]) && Tokenize(a + t) == first + Tokenize(a[k..] + t)
  {
    hide RefLength, Tokenize;
    TokenizeFirst(a);
    TokenizeFirst(a + t);
    var n := RefLength(a);
    k := if n > 0 then n else 1;
    first := if n > 0 then [Ref(a[6..n])] else [Lit(a[0])];
    Slices(a, t, k);
  }

  lemma Slices(a: string, t: string, k: nat)
    requires 0 < k <= |a|
    ensures (a + t)[k..] == a[k..] + t && (a + t)[0] == a[0] && (k >= 6 ==> (a + t)[6..k] == a[6..k])
  {
  }

  lemma RefSplit(a: string, c: char, b: string)
    requires !NameChar(c)
    ensures RefLength(a + [c] + b) == RefLength(a)
  {
    PrefixSplit(a, c, b);
    if |a| >= 6 {
      assert (a + [c] + b)[6..] == a[6..] + [c] + b;
      RunSplit(a[6..], c, b);
    }
  }

  lemma PrefixSplit(a: string, c: char, b: string)
    requires !NameChar(c)
    ensures StartsWith(a + [c] + b, "stats.") <==> StartsWith(a, "stats.")
  {
    var s := a + [c] + b;
    if |a| >= 6 {
      assert s[..6] == a[..6];
    } else if |s| >= 6 {
      assert s[..6][|a|] == c;
      assert forall i :: 0 <= i < 6 ==> NameChar("stats."[i]);
    }
  }

  lemma {:induction false} RunSplit(a: string, c: char, b: string)
    requires !NameChar(c)
    ensures NameRun(a + [c] + b) == NameRun(a)
  {
    var s := a + [c] + b;
    if a == "" {
      assert s[0] == c;
    } else {
      assert s[1..] == a[1..] + [c] + b;
      RunSplit(a[1..], c, b);
    }
  }

  lemma {:induction false} QuietSplit(a: string, c: char, b: string)
    requires !NameChar(c) && QuietText(a) && QuietText(b)
    ensures QuietText(a + [c] + b)
    decreases |a|
  {
    hide RefLength, NameChar, QuietText, Worded;
    var s := a + [c] + b;
    QuietFirstText(s);
    if a == "" {
      assert s == [c] + b && s[1..] == b;
      TokenizeHead(s);
      WordSplit("", c, b);
      assert "" + [c] + b == s && !Worded("") by { NoWord(); }
    } else {
      RefSplit(a, c, b);
      WordSplit(a, c, b);
      QuietFirstText(a);
      var n := RefLength(a);
      var k := if n > 0 then n else 1;
      Slices(a, [c] + b, k);
      assert a + ([c] + b) == s && a[k..] + ([c] + b) == a[k..] + [c] + b;
      QuietSplit(a[k..], c, b);
    }
  }

  lemma NoWord()
    ensures !Worded("")
  {
  }

  lemma WordSplit(a: string, c: char, b: string)
    requires !NameChar(c)
    ensures Worded(a + [c] + b) <==> Worded(a)
  {
    var s := a + [c] + b;
    if |a| >= 5 {
      assert s[..5] == a[..5];
    } else if |s| >= 5 {
      assert s[..5][|a|] == c;
      assert forall i :: 0 <= i < 5 ==> NameChar("stats"[i]);
    }
  }

  lemma FilledSplit(stats: Stats, a: string, c: char, b: string)
    requires !NameChar(c)
    ensures Filled(stats, a + [c] + b) == Filled(stats, a) + [c] + Filled(stats, b)
  {
    TokenizeSplit(a, c, b);
    hide Tokenize, Resolve;
    SimultaneousConcat(stats, Tokenize(a) + [Lit(c)], Tokenize(b));
    SimultaneousConcat(stats, Tokenize(a), [Lit(c)]);
    SimultaneousOne(stats, Lit(c));
  }

  lemma FilledGroup(stats: Stats, x: string, rest: string)
    ensures Filled(stats, "(" + x + ")" + rest) == "(" + Filled(stats, x) + ")" + Filled(stats, rest)
  {
    hide Filled;
    assert "(" + x + ")" + rest == "" + ['('] + (x + [')'] + rest);
    FilledSplit(stats, "", '(', x + [')'] + rest);
    FilledSplit(stats, x, ')', rest);
    FilledEmpty(stats);
  }

  lemma FilledEmpty(stats: Stats)
    ensures Filled(stats, "") == ""
  {
  }

  lemma FilledPlus(stats: Stats, rest: string)
    ensures Filled(stats, " + " + rest) == " + " + Filled(stats, rest)
  {
    hide Filled;
    assert " + " + rest == "" + [' '] + ("" + ['+'] + ("" + [' '] + rest));
    FilledSplit(stats, "", ' ', "" + ['+'] + ("" + [' '] + rest));
    FilledSplit(stats, "", '+', "" + [' '] + rest);
    FilledSplit(stats, "", ' ', rest);
    FilledEmpty(stats);
  }

  function FilledAll(stats: Stats, xs: seq<string>): (ys: seq<string>)
    ensures |ys| == |xs|
  {
    seq(|xs|, i requires 0 <= i < |xs| => Filled(stats, xs[i]))
  }

  lemma {:induction false} FilledMore(stats: Stats, xs: seq<string>)
    ensures Filled(stats, MoreGroups(xs)) == MoreGroups(FilledAll(stats, xs))
    decreases |xs|
  {
    hide Filled;
    if xs == [] {
      FilledEmpty(stats);
    } else {
      var group := "(" + xs[0] + ")" + MoreGroups(xs[1..]);
      assert MoreGroups(xs) == " + " + group;
      FilledPlus(stats, group);
      FilledGroup(stats, xs[0], MoreGroups(xs[1..]));
      FilledMore(stats, xs[1..]);
      var ys := FilledAll(stats, xs);
      assert ys[1..] == FilledAll(stats, xs[1..]);
      assert MoreGroups(ys) == " + " + ("(" + ys[0] + ")" + MoreGroups(ys[1..]));
    }
  }

  /** The expression as rewritten for cpu i. */
  function ForCpu(v: string, i: nat): string {
    Replace(v, "cpu.", "cpu" + ToString(i) + ".")
  }

  function Summands(v: string, n: nat): (xs: seq<string>)
    ensures |xs| == n
  {
    seq(n, i requires 0 <= i => ForCpu(v, i))
  }

  lemma {:induction false} SumIsGroups(v: string, n: nat)
    requires n > 0
    ensures Template.SumOverCpus(v, n) == "(" + Summands(v, n)[0] + ")" + MoreGroups(Summands(v, n)[1..])
  {
    hide Replace;
    var xs := Summands(v, n);
    if n == 1 {
      assert "cpu" + ToString(0) + "." == "cpu0.";
      assert xs[1..] == [];
    } else {
      SumIsGroups(v, n - 1);
      var ys, last := Summands(v, n - 1), ForCpu(v, n - 1);
      assert Template.SumOverCpus(v, n) == Template.SumOverCpus(v, n - 1) + (" + (" + last + ")");
      hide Template.SumOverCpus, ForCpu, ToString;
      assert xs == ys + [last] && xs[1..] == ys[1..] + [last];
      MoreGroupsConcat(ys[1..], [last]);
      assert [last][1..] == [] && MoreGroups([last]) == " + (" + last + ")";
    }
  }

  lemma {:induction false} MoreGroupsConcat(a: seq<string>, b: seq<string>)
    ensures MoreGroups(a + b) == MoreGroups(a) + MoreGroups(b)
  {
    if a == [] {
      assert a + b == b;
    } else {
      assert (a + b)[1..] == a[1..] + b;
      MoreGroupsConcat(a[1..], b);
    }
  }

  /**
   The value McPAT is given is the sum over all cpus of what the expression is worth on each of them, for
   any number of cpus and any expression that is clean when rewritten.
   */
  lemma TotalOverCpus(stats: Stats, num: string -> real, v: string, n: nat, vs: seq<real>)
    requires n > 0 && Evaluate(num, FilledAll(stats, Summands(v, n)), vs)
    requires var s := Template.SumOverCpus(v, n); Clean(stats, Names(Tokenize(s)), Tokenize(s))
    ensures var s := Template.SumOverCpus(v, n);
            Eval(num, Sequential(stats, Names(Tokenize(s)), s)) == Some(Total(vs))
  {
    SequentialIsSimultaneous(stats, Template.SumOverCpus(v, n));
    hide Eval, Clean, Tokenize, Names, Sequential, Simultaneous;
    var xs := Summands(v, n);
    SumIsGroups(v, n);
    FilledGroup(stats, xs[0], MoreGroups(xs[1..]));
    FilledMore(stats, xs[1..]);
    var ys := FilledAll(stats, xs);
    assert ys[1..] == FilledAll(stats, xs[1..]) && ys[0] == Filled(stats, xs[0]);
    GroupsSum(num, ys, vs);
  }

  function Glue(parts: seq<string>, sep: string): string
    requires parts != []
  {
    if |parts| == 1 then parts[0] else parts[0] + sep + Glue(parts[1..], sep)
  }

  /** The parts between the occurrences of sep, as they are found from left to right. */
  ghost predicate Parted(parts: seq<string>, sep: string)
    requires parts != []
  {
    if |parts| == 1 then !Contains(parts[0], sep)
    else
      && (forall i :: 0 <= i < |parts[0]| ==> !StartsWith(Glue(parts, sep)[i..], sep))
      && Parted(parts[1..], sep)
  }

  lemma {:induction false} ReplaceAll(parts: seq<string>, what: string, with: string)
    requires parts != [] && what != "" && Parted(parts, what)
    ensures Replace(Glue(parts, what), what, with) == Glue(parts, with)
    decreases |parts|
  {
    if |parts| == 1 {
      ReplaceNone(parts[0], what, with);
    } else {
      ReplaceAll(parts[1..], what, with);
      assert Glue(parts, what) == parts[0] + what + Glue(parts[1..], what);
      ReplaceFirst(parts[0], what, with, Glue(parts[1..], what));
    }
  }

  lemma GlueContains(parts: seq<string>, sep: string)
    requires |parts| > 1
    ensures Contains(Glue(parts, sep), sep)
  {
    var s := Glue(parts, sep);
    assert s[|parts[0]|..] == sep + Glue(parts[1..], sep);
    assert StartsWith(s[|parts[0]|..], sep);
  }

  /** gem5 does not number a single cpu: references to cpu 0 fall back to the unnumbered statistic. */
  lemma SingleCpuFallback(stats: Stats, parts: seq<string>)
    requires |parts| > 1 && Parted(parts, ".cpu0.")
    ensures var numbered, plain := Glue(parts, ".cpu0."), Glue(parts, ".cpu.");
            Resolve(stats, numbered) == if numbered in stats then Some(stats[numbered])
                                        else if plain in stats then Some(stats[plain]) else None
  {
    hide Replace, Parted, Glue;
    GlueContains(parts, ".cpu0.");
    ReplaceAll(parts, ".cpu0.", ".cpu.");
  }

  lemma {:induction false} ReplaceFirst(a: string, what: string, with: string, b: string)
    requires what != "" && forall i :: 0 <= i < |a| ==> !StartsWith((a + what + b)[i..], what)
    ensures Replace(a + what + b, what, with) == a + with + Replace(b, what, with)
    decreases |a|
  {
    var s := a + what + b;
    if a == "" {
      assert s[..|what|] == what && s[|what|..] == b;
    } else {
      assert s[0..] == s && s[1..] == a[1..] + what + b;
      forall i | 0 <= i < |a[1..]| ensures !StartsWith((a[1..] + what + b)[i..], what) {
        assert (a[1..] + what + b)[i..] == s[i + 1..];
      }
      ReplaceFirst(a[1..], what, with, b);
    }
  }

  lemma {:induction false} ReplaceNone(s: string, what: string, with: string)
    requires what != "" && !Contains(s, what)
    ensures Replace(s, what, with) == s
  {
    if s != "" {
      assert s[0..] == s;
      forall i | 0 <= i <= |s[1..]| ensures !StartsWith(s[1..][i..], what) {
        assert s[1..][i..] == s[i + 1..];
      }
      ReplaceNone(s[1..], what, with);
    }
  }
}
