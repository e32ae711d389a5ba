/**
 What the expander writes into the description: the values of refreshed children and of the copies of the core
 and the L2, stated by what the texts mean and not by how they are rewritten, and the same of the slots the
 reader fills.
 */
module Copies {
  import opened Wrappers
  import opened Decimal
  import opened Text
  import opened Xml
  import opened StatExpr
  import opened Arithmetic
  import opened CpuTotal
  import opened TotalCycles
  import Template
  import Reader
  import Composition

  type Config = Template.Config

  /** What stands before the first dot names a statistic, or a configuration value. */
  ghost predicate StatText(s: string) {
    Contains(BeforeDot(s), "stats") && !Contains(BeforeDot(s), "config")
  }

  ghost predicate ConfigText(s: string) {
    Contains(BeforeDot(s), "config") && !Contains(BeforeDot(s), "stats")
  }

  /**
   The value w is v made to name cpu k: a number behind every cpu of a statistic, one more level behind every
   cpu of a configuration value, and nothing else changed.
   */
  ghost predicate NamesCpu(v: Option<string>, w: Option<string>, k: nat) {
    && (v == None ==> w == None)
    && (v.Some? && !Contains(v.value, "cpu.") ==> w == v)
    && (forall items: seq<Item> ::
          WellFormed(items) && StatText(Written(items)) && v == Some(Written(items)) ==>
            w == Some(Flatten(Numbered(items, k))))
    && (forall parts: seq<string> ::
          |parts| > 1 && Parted(parts, "cpu.") && ConfigText(Glue(parts, "cpu.")) && v == Some(Glue(parts, "cpu.")) ==>
            w == Some(Glue(parts, "cpu." + Digits(k) + ".")))
  }

  // ----- One value -----

  lemma {:induction false} BeforeDotOf(h: string, rest: string)
    requires '.' !in h
    ensures BeforeDot(h + "." + rest) == h
  {
    var s := h + "." + rest;
    if h != "" {
      assert s[1..] == h[1..] + "." + rest;
      BeforeDotOf(h[1..], rest);
      assert h == [h[0]] + h[1..];
    }
  }

  lemma StatBegins(x: string)
    ensures BeforeDot("stats." + x) == "stats"
  {
    assert "stats." + x == "stats" + "." + x;
    BeforeDotOf("stats", x);
  }

  /** Numbering changes nothing before the first dot. */
  lemma {:induction false} SameBeforeDot(items: seq<Item>, k: nat)
    ensures BeforeDot(Flatten(Numbered(items, k))) == BeforeDot(Written(items))
    decreases |items|
  {
    if items != [] {
      hide BeforeDot, NameOf;
      NumberedAt(items, k);
      SameBeforeDot(items[1..], k);
      hide Numbered;
      var a, b := Written(items[1..]), Flatten(Numbered(items[1..], k));
      match items[0]
      case Char(c) =>
        BeforeDotFirst(c, a);
        BeforeDotFirst(c, b);
      case PerCpu(p, q) =>
        SixBegin(Spelt(items[0]), a);
        SixBegin(Flat(NumberedItem(items[0], k)), b);
    }
  }

  lemma BeforeDotFirst(c: char, s: string)
    ensures BeforeDot([c] + s) == if c == '.' then "" else [c] + BeforeDot(s)
  {
    assert ([c] + s)[1..] == s;
  }

  lemma SixBegin(x: string, rest: string)
    requires |x| >= 6 && x[..6] == "stats."
    ensures BeforeDot(x + rest) == "stats"
  {
    StatBegins(x[6..] + rest);
    assert x + rest == "stats." + (x[6..] + rest);
  }

  lemma StatisticNamed(items: seq<Item>, k: nat)
    requires WellFormed(items) && StatText(Written(items))
    ensures Template.ForCpu(Some(Written(items)), k) == Some(Flatten(Numbered(items, k)))
  {
    hide Numbered, WellFormed, Written, Replace, Contains, BeforeDot;
    var v := Written(items);
    Rewritten(items, k);
    SameBeforeDot(items, k);
    if !Contains(v, "cpu.") {
      ReplaceNone(v, "cpu.", "cpu" + Digits(k) + ".");
    }
  }

  lemma ConfigurationNamed(parts: seq<string>, k: nat)
    requires |parts| > 1 && Parted(parts, "cpu.") && ConfigText(Glue(parts, "cpu."))
    ensures Template.ForCpu(Some(Glue(parts, "cpu.")), k) == Some(Glue(parts, "cpu." + Digits(k) + "."))
  {
    hide Parted, Glue, Replace, Contains, BeforeDot;
    GlueContains(parts, "cpu.");
    ReplaceAll(parts, "cpu.", "cpu." + Digits(k) + ".");
  }

  lemma ValueNamed(v: Option<string>, k: nat)
    ensures NamesCpu(v, Template.ForCpu(v, k), k)
  {
    hide WellFormed, Written, Numbered, Parted, Glue, Replace, Contains, StatText, ConfigText;
    var w := Template.ForCpu(v, k);
    forall items: seq<Item> | WellFormed(items) && StatText(Written(items)) && v == Some(Written(items))
      ensures w == Some(Flatten(Numbered(items, k)))
    {
      StatisticNamed(items, k);
    }
    forall parts: seq<string> |
      |parts| > 1 && Parted(parts, "cpu.") && ConfigText(Glue(parts, "cpu.")) && v == Some(Glue(parts, "cpu."))
      ensures w == Some(Glue(parts, "cpu." + Digits(k) + "."))
    {
      ConfigurationNamed(parts, k);
    }
  }

  // ----- The copies -----

  /** The id is numbered behind every core it names. */
  ghost predicate IdNumbered(v: Option<string>, w: Option<string>, k: nat) {
    && (v == None ==> w == None)
    && (v.Some? && !Contains(v.value, "core") ==> w == v)
    && (forall parts: seq<string> ::
          |parts| > 1 && Parted(parts, "core") && v == Some(Glue(parts, "core")) ==>
            w == Some(Glue(parts, "core" + Digits(k))))
  }

  ghost predicate KidsCopied(kids: seq<Elem>, copies: seq<Elem>, k: nat) {
    && |copies| == |kids|
    && forall i :: 0 <= i < |kids| ==>
         copies[i] == kids[i].(value := copies[i].value) && NamesCpu(kids[i].value, copies[i].value, k)
  }

  ghost predicate CoreKidCopied(c: Config, kid: Elem, copy: Elem, k: nat)
    requires k < c.NumCores()
  {
    && copy.tag == kid.tag && copy.name == kid.name && IdNumbered(kid.id, copy.id, k)
    && (if kid.name == Some("x86") then copy.value == Some(if c.cpuIsX86[k] then "1" else "0")
        else NamesCpu(kid.value, copy.value, k))
    && KidsCopied(kid.kids, copy.kids, k)
  }

  /** The k-th copy of a core: its own name and id, and its children and theirs name cpu k. */
  ghost predicate CoreCopied(c: Config, core: Elem, copy: Elem, k: nat)
    requires k < c.NumCores()
  {
    && copy.name == Some("core" + Digits(k)) && copy.id == Some("system.core" + Digits(k)) && copy.tag == core.tag
    && |copy.kids| == |core.kids|
    && forall i :: 0 <= i < |core.kids| ==> CoreKidCopied(c, core.kids[i], copy.kids[i], k)
  }

  ghost predicate L2Copied(l2: Elem, copy: Elem, k: nat) {
    && copy.name == Some("L2" + Digits(k)) && copy.id == Some("system.L2" + Digits(k)) && copy.tag == l2.tag
    && KidsCopied(l2.kids, copy.kids, k)
  }

  lemma NoCpuInFlag(flag: string, k: nat)
    requires flag == "0" || flag == "1"
    ensures Template.ForCpu(Some(flag), k) == Some(flag)
  {
    assert flag[0] != 'c';
    assert 'c' !in flag;
    NeedsChar(flag, "cpu.", "cpu."[0]);
  }

  lemma IdNamed(kid: Elem, k: nat, c: Config)
    requires k < c.NumCores()
    ensures IdNumbered(kid.id, Template.CoreKid(c, kid, k).id, k)
  {
    hide Parted, Glue, Replace, Contains, Template.ForCpu;
    forall parts: seq<string> | |parts| > 1 && Parted(parts, "core") && kid.id == Some(Glue(parts, "core"))
      ensures Template.CoreKid(c, kid, k).id == Some(Glue(parts, "core" + Digits(k)))
    {
      GlueContains(parts, "core");
      ReplaceAll(parts, "core", "core" + Digits(k));
    }
  }

  lemma KidNamed(c: Config, kid: Elem, k: nat)
    requires k < c.NumCores()
    ensures CoreKidCopied(c, kid, Template.CoreKid(c, kid, k), k)
  {
    hide NamesCpu, IdNumbered, Template.ForCpu;
    IdNamed(kid, k, c);
    hide Contains, Replace;
    ValueNamed(kid.value, k);
    NoCpuInFlag(if c.cpuIsX86[k] then "1" else "0", k);
    forall j | 0 <= j < |kid.kids| ensures NamesCpu(kid.kids[j].value, Template.ForCpu(kid.kids[j].value, k), k) {
      ValueNamed(kid.kids[j].value, k);
    }
  }

  lemma CoreCopyMeans(c: Config, core: Elem, k: nat)
    requires k < c.NumCores()
    ensures CoreCopied(c, core, Template.CoreCopies(c, core)[k], k)
  {
    hide CoreKidCopied, Template.CoreKid;
    forall i | 0 <= i < |core.kids|
      ensures CoreKidCopied(c, core.kids[i], Template.CoreKid(c, core.kids[i], k), k)
    {
      KidNamed(c, core.kids[i], k);
    }
  }

  lemma L2CopyMeans(c: Config, l2: Elem, k: nat)
    requires k < c.NumL2()
    ensures L2Copied(l2, Template.L2Copies(c, l2)[k], k)
  {
    hide NamesCpu, Template.ForCpu;
    forall i | 0 <= i < |l2.kids| ensures NamesCpu(l2.kids[i].value, Template.ForCpu(l2.kids[i].value, k), k) {
      ValueNamed(l2.kids[i].value, k);
    }
  }

  // ----- Refreshed children -----

  /** The sum over n cpus of an expression. */
  ghost function SumText(items: seq<Item>, n: nat): string
    requires n > 0
  {
    "(" + Flatten(Numbered(items, 0)) + ")" + MoreGroups(seq(n - 1, i requires 0 <= i => Flatten(Numbered(items, i + 1))))
  }

  /** The counts and the flag are the configuration's, a statistic of one cpu becomes the sum over all of them. */
  ghost predicate Refreshed(c: Config, e: Elem, r: Elem)
    requires c.NumCores() > 0
  {
    && r == e.(value := r.value)
    && (e.name == Some("number_of_cores") ==> r.value == Some(Digits(|c.cpuIsX86|)))
    && (e.name == Some("number_of_L2s") ==>
          r.value == Some(Digits(if c.privateL2 then |c.cpuIsX86| else if c.sharedL2 then 1 else 0)))
    && (e.name == Some("Private_L2") ==> r.value == Some(if c.sharedL2 then "0" else "1"))
    && (e.name !in {Some("number_of_cores"), Some("number_of_L2s"), Some("Private_L2")} ==>
          ValueRefreshed(e.value, r.value, c.NumCores()))
  }

  ghost predicate ValueRefreshed(v: Option<string>, w: Option<string>, n: nat)
    requires n > 0
  {
    && (v == None || !Contains(v.value, "cpu.") || BeforeDot(v.value) != "stats" ==> w == v)
    && (forall items: seq<Item> ::
          WellFormed(items) && items != [] && items[0].PerCpu? && v == Some(Written(items)) ==>
            w == Some(SumText(items, n)))
  }

  lemma NoStatInNumber(s: string)
    requires forall i :: 0 <= i < |s| ==> IsDigit(s[i])
    ensures !Template.IsCpuTotal(s)
  {
    assert 'c' !in s;
    NeedsChar(s, "cpu.", "cpu."[0]);
  }

  lemma TotalIsSum(items: seq<Item>, n: nat)
    requires n > 0 && WellFormed(items)
    ensures Template.SumOverCpus(Written(items), n) == SumText(items, n)
  {
    hide Template.SumOverCpus, Numbered, WellFormed, Written, ForCpu, MoreGroups, Flatten, Summands;
    SumIsGroups(Written(items), n);
    SummandTexts(items, n);
  }

  lemma SummandTexts(items: seq<Item>, n: nat)
    requires n > 0 && WellFormed(items)
    ensures var xs := Summands(Written(items), n);
            && xs[0] == Flatten(Numbered(items, 0))
            && xs[1..] == seq(n - 1, i requires 0 <= i => Flatten(Numbered(items, i + 1)))
  {
    hide Numbered, WellFormed, Written, ForCpu, Flatten;
    var xs, ys := Summands(Written(items), n), seq(n - 1, i requires 0 <= i => Flatten(Numbered(items, i + 1)));
    Rewritten(items, 0);
    forall i: nat | i < n - 1 ensures xs[1..][i] == ys[i] {
      Rewritten(items, i + 1);
      assert xs[i + 1] == ForCpu(Written(items), i + 1);
    }
    assert xs[1..] == ys;
  }

  lemma FirstIsStat(items: seq<Item>)
    requires items != [] && items[0].PerCpu?
    ensures Template.IsCpuTotal(Written(items))
  {
    var p, q, rest := items[0].p, items[0].q, Written(items[1..]);
    var v := Written(items);
    assert v == "stats." + (p + "cpu." + q + rest);
    StatBegins(p + "cpu." + q + rest);
    var k := 6 + |p|;
    assert v[k..] == "cpu." + (q + rest);
    assert v[k..][..4] == "cpu." && StartsWith(v[k..], "cpu.");
  }

  lemma ValueIsRefreshed(c: Config, v: Option<string>)
    requires c.NumCores() > 0
    ensures ValueRefreshed(v, if v.Some? && Template.IsCpuTotal(v.value)
                              then Some(Template.SumOverCpus(v.value, c.NumCores())) else v, c.NumCores())
  {
    var w := if v.Some? && Template.IsCpuTotal(v.value) then Some(Template.SumOverCpus(v.value, c.NumCores())) else v;
    hide Template.SumOverCpus, Numbered, WellFormed, Written, SumText, Contains;
    forall items: seq<Item> | WellFormed(items) && items != [] && items[0].PerCpu? && v == Some(Written(items))
      ensures w == Some(SumText(items, c.NumCores()))
    {
      FirstIsStat(items);
      TotalIsSum(items, c.NumCores());
    }
  }

  lemma RefreshMeans(c: Config, e: Elem)
    requires c.NumCores() > 0
    ensures Refreshed(c, e, Template.Refresh(c, e))
  {
    hide ValueRefreshed, Template.IsCpuTotal, Template.SumOverCpus, Digits;
    ValueIsRefreshed(c, e.value);
    NoStatInNumber(Digits(c.NumCores()));
    NoStatInNumber(Digits(c.NumL2()));
    NoStatInNumber("0");
    NoStatInNumber("1");
  }

  /** A refreshed statistic, substituted and evaluated, is the sum of the expression's values over all cpus. */
  lemma RefreshedTotal(c: Config, e: Elem, items: seq<Item>, stats: Stats, num: string -> real, vs: seq<real>)
    requires var n := c.NumCores(); n > 0 && |vs| == n && WellFormed(items) && ToldApart(items)
    requires e.name !in {Some("number_of_cores"), Some("number_of_L2s"), Some("Private_L2")}
    requires e.value == Some(Written(items)) && items != [] && items[0].PerCpu?
    requires forall a :: a in AllNames(items, c.NumCores()) && Resolve(stats, a).Some? ==>
               QuietValue(Resolve(stats, a).value)
    requires forall i: nat :: i < c.NumCores() ==> Eval(num, Simultaneous(stats, Numbered(items, i))) == Some(vs[i])
    ensures var r := Template.Refresh(c, e).value;
            r.Some? && Eval(num, Sequential(stats, Names(Tokenize(r.value)), r.value)) == Some(Total(vs))
  {
    hide WellFormed, ToldApart, Written, AllNames, Resolve, QuietValue, Eval, Simultaneous, Numbered, Sequential, Names,
         Tokenize, SumText, Template.Refresh, Template.SumOverCpus;
    RefreshMeans(c, e);
    TotalIsSum(items, c.NumCores());
    TotalOfExpression(stats, num, items, c.NumCores(), vs);
  }

  // ----- The slots -----

  lemma PassedKeeps(c: Config, es: seq<Elem>, k: nat)
    requires c.NumCores() > 0 && k < |es|
    ensures var r := Template.PassFirst(c, es)[k];
            r.tag == es[k].tag && r.name == es[k].name && r.id == es[k].id && r.kids == es[k].kids
    ensures var r := Template.RefreshAll(c, es)[k];
            r.tag == es[k].tag && r.name == es[k].name && r.id == es[k].id && r.kids == es[k].kids
  {
    Template.RefreshKeeps(c, es[k]);
    hide Template.Refresh;
    assert k > 0 ==> es[1..][k - 1] == es[k];
  }

  /** Every core and L2 the reader stores names its own cpu, in all its children and theirs. */
  lemma SlotContents(c: Config, d: Template.Doc, y: Composition.Layout)
    requires c.NumCores() > 0 && Composition.Shaped(d, y) && Composition.Compatible(c, d)
    ensures var r := Reader.Parse(Template.Run(c, Template.State(d.Children(), 0, 0)).children);
            && r.Ok? && r.value.Some?
            && var front, back := r.value.value.front, r.value.value.back;
            && |front.cores| == c.NumCores()
            && (forall k: nat :: k < c.NumCores() ==> CoreCopied(c, d.core, front.cores[k], k))
            && (c.privateL2 ==>
                  |back.l2s| == c.NumCores() && forall k: nat :: k < c.NumCores() ==> L2Copied(d.l2, back.l2s[k], k))
            && (!c.privateL2 ==>
                  && |back.l2s| == 1 && back.l2s[0].kids == d.l2.kids
                  && back.l2s[0].name == Some("L20") && back.l2s[0].id == Some("system.L20"))
  {
    hide Template.Run, Reader.Parse, Composition.Shaped, Composition.Compatible, CoreCopied, L2Copied;
    Composition.CompatibleAccepted(c, d, y);
    CoreSlots(c, d, y);
    L2Slots(c, d, y);
  }

  lemma CoreSlots(c: Config, d: Template.Doc, y: Composition.Layout)
    requires c.NumCores() > 0
    ensures var cores := Composition.ExpectedFront(c, d, y).cores;
            |cores| == c.NumCores() && forall k: nat :: k < c.NumCores() ==> CoreCopied(c, d.core, cores[k], k)
  {
    var core := Template.Refresh(c, d.core);
    var copies := Template.CoreCopies(c, core);
    forall k: nat | k < c.NumCores()
      ensures CoreCopied(c, d.core, Template.PassFirst(c, copies)[k], k)
    {
      Template.RefreshKeeps(c, d.core);
      CoreCopyMeans(c, core, k);
      PassedKeeps(c, copies, k);
      hide CoreKidCopied, Template.Refresh, Template.CoreCopies, Template.PassFirst;
    }
  }

  lemma L2Slots(c: Config, d: Template.Doc, y: Composition.Layout)
    requires c.NumCores() > 0
    ensures var l2s := Composition.ExpectedBack(c, d, y).l2s;
            if c.privateL2
            then |l2s| == c.NumCores() && forall k: nat :: k < c.NumCores() ==> L2Copied(d.l2, l2s[k], k)
            else |l2s| == 1 && l2s[0].kids == d.l2.kids && l2s[0].name == Some("L20") && l2s[0].id == Some("system.L20")
  {
    var l2 := Template.Refresh(c, d.l2);
    Template.RefreshKeeps(c, d.l2);
    var copies := Template.L2Copies(c, l2);
    if c.privateL2 {
      forall k: nat | k < c.NumCores()
        ensures L2Copied(d.l2, Template.PassFirst(c, copies)[k], k) && L2Copied(d.l2, Template.RefreshAll(c, copies)[k], k)
      {
        L2CopyMeans(c, l2, k);
        PassedKeeps(c, copies, k);
        hide KidsCopied, Template.Refresh, Template.L2Copies, Template.PassFirst, Template.RefreshAll;
      }
    }
  }
}
