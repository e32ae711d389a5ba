/**
 The expander and the reader together: on which configurations the description the script writes is one
 the reader accepts, and which component every slot is then filled from.
 */
module Composition {
  import opened Wrappers
  import opened Decimal
  import opened Text
  import opened Xml
  import opened Template
  import opened Reader

  ghost predicate AllMatch(k: Kind, es: seq<Elem>) {
    forall i :: 0 <= i < |es| ==> Matches(k, es[i])
  }

  ghost predicate NoneMatch(k: Kind, es: seq<Elem>) {
    forall i :: 0 <= i < |es| ==> !Matches(k, es[i])
  }

  ghost predicate NoParams(es: seq<Elem>) {
    forall i :: 0 <= i < |es| ==> es[i].tag != Param
  }

  // ----- The reader on a list of components that is already in order -----

  lemma RunFits(k: Kind, before: seq<Elem>, run: seq<Elem>, after: seq<Elem>)
    requires AllMatch(k, run) && |run| <= Reader.SLOTS
    ensures RunOutcome(k, before + run + after, |before|, |run|) == Ok(run)
  {
    hide Matches;
    var comps := before + run + after;
    assert forall i :: |before| <= i < |before| + |run| ==> comps[i] == run[i - |before|];
    if |run| > 0 {
      assert comps[|before|..|before| + |run|] == run;
    }
  }

  lemma FrontAccepts(p: Counts, f: Front, rest: seq<Elem>)
    requires |f.cores| == CoreCount(p) && |f.l1Dirs| == RunCount(p.homoL1Dirs, p.l1Dirs)
    requires |f.l2Dirs| == RunCount(p.homoL2Dirs, p.l2Dirs)
    requires |f.cores| <= Reader.SLOTS && |f.l1Dirs| <= Reader.SLOTS && |f.l2Dirs| <= Reader.SLOTS
    requires AllMatch(CoreKind, f.cores) && AllMatch(L1DirKind, f.l1Dirs) && AllMatch(L2DirKind, f.l2Dirs)
    ensures WalkFront(p, f.cores + f.l1Dirs + f.l2Dirs + rest) == Ok(f)
  {
    hide RunOutcome, Matches;
    var comps := f.cores + f.l1Dirs + f.l2Dirs + rest;
    assert comps == [] + f.cores + (f.l1Dirs + f.l2Dirs + rest);
    RunFits(CoreKind, [], f.cores, f.l1Dirs + f.l2Dirs + rest);
    assert comps == f.cores + f.l1Dirs + (f.l2Dirs + rest);
    RunFits(L1DirKind, f.cores, f.l1Dirs, f.l2Dirs + rest);
    RunFits(L2DirKind, f.cores + f.l1Dirs, f.l2Dirs, rest);
  }

  lemma BackAccepts(p: Counts, before: seq<Elem>, b: Back, rest: seq<Elem>)
    requires |before| == FrontLength(p) && |b.l2s| == RunCount(p.homoL2s, p.l2s)
    requires |b.l3s| == RunCount(p.homoL3s, p.l3s) && |b.nocs| == RunCount(p.homoNocs, p.nocs)
    requires |b.l2s| <= Reader.SLOTS && |b.l3s| <= Reader.SLOTS && |b.nocs| <= Reader.SLOTS
    requires AllMatch(L2Kind, b.l2s) && AllMatch(L3Kind, b.l3s) && AllMatch(NocKind, b.nocs)
    ensures WalkBack(p, before + (b.l2s + b.l3s + b.nocs + rest)) == Ok(b)
  {
    hide RunOutcome, Matches, FrontLength;
    var comps := before + (b.l2s + b.l3s + b.nocs + rest);
    assert comps == before + b.l2s + (b.l3s + b.nocs + rest);
    RunFits(L2Kind, before, b.l2s, b.l3s + b.nocs + rest);
    assert comps == (before + b.l2s) + b.l3s + (b.nocs + rest);
    RunFits(L3Kind, before + b.l2s, b.l3s, b.nocs + rest);
    assert comps == (before + b.l2s + b.l3s) + b.nocs + rest;
    RunFits(NocKind, before + b.l2s + b.l3s, b.nocs, rest);
  }

  ghost predicate Singles(mc: Elem, niu: Elem, pcie: Elem, flashc: Elem) {
    Matches(McKind, mc) && Matches(NiuKind, niu) && Matches(PcieKind, pcie) && Matches(FlashKind, flashc)
  }

  lemma SinglesAccept(before: seq<Elem>, f: Front, b: Back, mc: Elem, niu: Elem, pcie: Elem, flashc: Elem, extra: seq<Elem>)
    requires 2 <= |before| < 0x1_0000 && Singles(mc, niu, pcie, flashc)
    ensures WalkSingles(U32(|before| - 1), before + ([mc, niu, pcie, flashc] + extra), f, b) ==
            Ok(Slots(f, b, mc, niu, pcie, flashc))
  {
    hide Matches, U32;
    var comps := before + ([mc, niu, pcie, flashc] + extra);
    var n := |before|;
    Small(n - 1);
    Small(n);
    Small(n + 1);
    Small(n + 2);
    Small(n + 3);
    assert comps[n] == mc && comps[n + 1] == niu && comps[n + 2] == pcie && comps[n + 3] == flashc;
  }

  ghost predicate MatchRange(k: Kind, comps: seq<Elem>, from: nat, to: nat) {
    forall i :: from <= i < to ==> i < |comps| && Matches(k, comps[i])
  }

  lemma FrontMeans(p: Counts, comps: seq<Elem>)
    requires WalkFront(p, comps).Ok?
    ensures CoreCount(p) <= Reader.SLOTS && FrontLength(p) <= 3 * Reader.SLOTS
    ensures var n := CoreCount(p) + RunCount(p.homoL1Dirs, p.l1Dirs);
            MatchRange(L1DirKind, comps, CoreCount(p), n) && MatchRange(L2DirKind, comps, n, FrontLength(p))
  {
    hide RunOutcome, Matches, U32;
    var n0 := CoreCount(p);
    var c1, c2 := RunCount(p.homoL1Dirs, p.l1Dirs), RunCount(p.homoL2Dirs, p.l2Dirs);
    ShortRun(CoreKind, comps, 0, n0);
    ShortRun(L1DirKind, comps, n0, c1);
    ShortRun(L2DirKind, comps, n0 + c1, c2);
  }

  lemma BackMeans(p: Counts, comps: seq<Elem>)
    requires WalkBack(p, comps).Ok?
    ensures RunCount(p.homoL2s, p.l2s) <= Reader.SLOTS && RunCount(p.homoL3s, p.l3s) <= Reader.SLOTS
    ensures MatchRange(L2Kind, comps, FrontLength(p), FrontLength(p) + RunCount(p.homoL2s, p.l2s))
  {
    hide RunOutcome, Matches, U32, FrontLength;
    var c3, c4 := RunCount(p.homoL2s, p.l2s), RunCount(p.homoL3s, p.l3s);
    ShortRun(L2Kind, comps, FrontLength(p), c3);
    ShortRun(L3Kind, comps, FrontLength(p) + c3, c4);
  }

  /** Whatever the reader accepts has passed the tests of its runs and holds a controller right behind them. */
  lemma AcceptedMeans(p: Counts, comps: seq<Elem>)
    requires comps != [] && Walk(p, comps).Ok? && RunCount(p.homoNocs, p.nocs) <= Reader.SLOTS
    ensures CoreCount(p) <= Reader.SLOTS
    ensures var n := CoreCount(p) + RunCount(p.homoL1Dirs, p.l1Dirs);
            && MatchRange(L1DirKind, comps, CoreCount(p), n) && MatchRange(L2DirKind, comps, n, FrontLength(p))
            && MatchRange(L2Kind, comps, FrontLength(p), FrontLength(p) + RunCount(p.homoL2s, p.l2s))
    ensures var q := if RunsLength(p) > 1 then RunsLength(p) else 0; q < |comps| && Matches(McKind, comps[q])
    ensures RunsLength(p) <= 6 * Reader.SLOTS
  {
    hide Matches, WalkFront, WalkBack, MatchRange, RunCount, FrontLength, CoreCount, WalkSingles, U32;
    FrontMeans(p, comps);
    BackMeans(p, comps);
    SinglesMean(RunsLength(p), comps, WalkFront(p, comps).value, WalkBack(p, comps).value);
  }

  lemma SinglesMean(n: nat, comps: seq<Elem>, f: Front, b: Back)
    requires 0 < n < 0x1_0000 && WalkSingles(U32(n - 1), comps, f, b).Ok?
    ensures var q := if n > 1 then n else 0; q < |comps| && Matches(McKind, comps[q])
  {
    hide Matches, U32;
    Small(n - 1);
    Small(n);
  }

  // ----- The parameters after the expansion -----

  ghost predicate HasParam(es: seq<Elem>, name: string) {
    exists i :: 0 <= i < |es| && es[i].tag == Param && es[i].name == Some(name)
  }

  lemma {:induction false} IntParamConcat(a: seq<Elem>, b: seq<Elem>, name: string, default: int)
    ensures IntParam(a + b, name, default) == IntParam(b, name, IntParam(a, name, default))
  {
    if a == [] {
      assert a + b == b;
    } else {
      assert (a + b)[1..] == a[1..] + b;
      var d := if a[0].tag == Param && a[0].name == Some(name)
               then Atoi(if a[0].value.Some? then a[0].value.value else "") else default;
      IntParamConcat(a[1..], b, name, d);
    }
  }

  /** A count or flag of that name is x. */
  ghost function Counted(p: Counts, name: string, x: int): Counts {
    if name == "number_of_cores" then p.(cores := x)
    else if name == "number_of_L1Directories" then p.(l1Dirs := x)
    else if name == "number_of_L2Directories" then p.(l2Dirs := x)
    else if name == "number_of_L2s" then p.(l2s := x)
    else if name == "number_of_L3s" then p.(l3s := x)
    else if name == "number_of_NoCs" then p.(nocs := x)
    else if name == "homogeneous_cores" then p.(homoCores := x)
    else if name == "homogeneous_L1Directories" then p.(homoL1Dirs := x)
    else if name == "homogeneous_L2Directories" then p.(homoL2Dirs := x)
    else if name == "homogeneous_L2s" then p.(homoL2s := x)
    else if name == "homogeneous_L3s" then p.(homoL3s := x)
    else if name == "homogeneous_NoCs" then p.(homoNocs := x)
    else p
  }

  lemma IntParamLast(es: seq<Elem>, e: Elem, name: string, default: int)
    ensures IntParam(es + [e], name, default) ==
            if e.tag == Param && e.name == Some(name) then Atoi(if e.value.Some? then e.value.value else "")
            else IntParam(es, name, default)
  {
    IntParamConcat(es, [e], name, default);
  }

  /** A parameter sets its own count or flag, whatever was there before, and no other. */
  lemma LastParameter(es: seq<Elem>, e: Elem)
    requires e.tag == Param && e.name.Some? && e.value.Some?
    ensures ReadCounts(es + [e]) == Counted(ReadCounts(es), e.name.value, Atoi(e.value.value))
  {
    hide IntParam, Atoi;
    IntParamLast(es, e, "number_of_cores", 1);
    IntParamLast(es, e, "number_of_L1Directories", 1);
    IntParamLast(es, e, "number_of_L2Directories", 1);
    IntParamLast(es, e, "number_of_L2s", 1);
    IntParamLast(es, e, "number_of_L3s", 1);
    IntParamLast(es, e, "number_of_NoCs", 1);
    IntParamLast(es, e, "homogeneous_cores", 1);
    IntParamLast(es, e, "homogeneous_L1Directories", 1);
    IntParamLast(es, e, "homogeneous_L2Directories", 1);
    IntParamLast(es, e, "homogeneous_L2s", 1);
    IntParamLast(es, e, "homogeneous_L3s", 1);
    IntParamLast(es, e, "homogeneous_NoCs", 1);
  }

  lemma {:induction false} IntParamNone(es: seq<Elem>, name: string, default: int)
    requires NoParams(es)
    ensures IntParam(es, name, default) == default
  {
    if es != [] {
      IntParamNone(es[1..], name, default);
    }
  }

  function ValueOf(e: Elem): int {
    Atoi(if e.value.Some? then e.value.value else "")
  }

  lemma BeforeDotPlain(s: string)
    requires '.' !in s
    ensures BeforeDot(s) == s
  {
  }

  /** Rewriting a total over all cpus leaves a parameter's integer value alone: it was and is 0. */
  lemma RefreshedValue(c: Config, e: Elem)
    requires c.NumCores() > 0
    ensures e.name == Some("number_of_cores") ==> ValueOf(Refresh(c, e)) == c.NumCores()
    ensures e.name == Some("number_of_L2s") ==> ValueOf(Refresh(c, e)) == c.NumL2()
    ensures e.name !in {Some("number_of_cores"), Some("number_of_L2s"), Some("Private_L2")} ==>
              ValueOf(Refresh(c, e)) == ValueOf(e)
  {
    if e.name == Some("number_of_cores") || e.name == Some("number_of_L2s") {
      var n := if e.name == Some("number_of_cores") then c.NumCores() else c.NumL2();
      var v := ToString(n);
      BeforeDotPlain(v);
      assert v[0] != 's';
      assert v != "stats";
      assert v + "" == v;
      AtoiToString(n, "");
    } else if e.name != Some("Private_L2") && e.value.Some? && IsCpuTotal(e.value.value) {
      var v := e.value.value;
      assert v[0] == BeforeDot(v)[0] == 's';
      SumStart(v, c.NumCores());
    }
  }

  lemma {:induction false} SumStart(v: string, n: nat)
    requires n > 0
    ensures SumOverCpus(v, n) != "" && SumOverCpus(v, n)[0] == '('
  {
    if n > 1 {
      SumStart(v, n - 1);
    }
  }

  lemma {:induction false} RefreshedParam(c: Config, es: seq<Elem>, name: string, default: int)
    requires c.NumCores() > 0 && name != "Private_L2"
    ensures var r := IntParam(RefreshAll(c, es), name, default);
            if name == "number_of_cores" && HasParam(es, name) then r == c.NumCores()
            else if name == "number_of_L2s" && HasParam(es, name) then r == c.NumL2()
            else r == IntParam(es, name, default)
    decreases |es|
  {
    if es != [] {
      var init, e := es[..|es| - 1], es[|es| - 1];
      assert es == init + [e];
      assert RefreshAll(c, es) == RefreshAll(c, init) + [Refresh(c, e)];
      RefreshedParam(c, init, name, default);
      IntParamConcat(init, [e], name, default);
      IntParamConcat(RefreshAll(c, init), [Refresh(c, e)], name, default);
      LastParam(e, name, IntParam(init, name, default));
      LastParam(Refresh(c, e), name, IntParam(RefreshAll(c, init), name, default));
      RefreshKeeps(c, e);
      RefreshedValue(c, e);
      hide Refresh, IntParam;
      assert HasParam(es, name) <==> HasParam(init, name) || (e.tag == Param && e.name == Some(name));
    }
  }

  lemma LastParam(e: Elem, name: string, default: int)
    ensures IntParam([e], name, default) == if e.tag == Param && e.name == Some(name) then ValueOf(e) else default
  {
    assert [e][1..] == [];
  }

  // ----- The components after the expansion -----

  lemma {:induction false} ComponentsRefreshed(c: Config, es: seq<Elem>)
    requires c.NumCores() > 0
    ensures Components(RefreshAll(c, es)) == RefreshAll(c, Components(es))
    decreases |es|
  {
    if es != [] {
      ComponentsRefreshed(c, es[1..]);
      RefreshSplit(c, es);
      RefreshKeeps(c, es[0]);
      var first := if es[0].tag == Component then [es[0]] else [];
      assert Components(es) == first + Components(es[1..]);
      assert ([Refresh(c, es[0])] + RefreshAll(c, es[1..]))[1..] == RefreshAll(c, es[1..]);
      hide Refresh;
    }
  }

  lemma {:induction false} AllComponents(es: seq<Elem>)
    requires forall i :: 0 <= i < |es| ==> es[i].tag == Component
    ensures Components(es) == es
  {
    if es != [] {
      AllComponents(es[1..]);
    }
  }

  /** Where a document's components belong. */
  datatype Layout = Layout(
    l1Dirs: seq<Elem>, l2Dirs: seq<Elem>, l3s: seq<Elem>, nocs: seq<Elem>,
    mc: Elem, niu: Elem, pcie: Elem, flashc: Elem, extra: seq<Elem>)
  {
    function TailComponents(): seq<Elem> { l3s + nocs + ([mc, niu, pcie, flashc] + extra) }
  }

  /**
   A template in the order the reader expects: the counts in front of the core, one core, the directories,
   one L2, the L3s, the NoCs and the four controllers, with any comments and statistics in between.
   */
  ghost predicate Shaped(d: Doc, y: Layout) {
    && d.Valid() && d.core.tag == Component && d.l2.tag == Component
    && Components(d.pre) == [] && NoParams(d.mid) && NoParams(d.tail)
    && Components(d.mid) == y.l1Dirs + y.l2Dirs && Components(d.tail) == y.TailComponents()
    && HasParam(d.pre, "number_of_cores") && HasParam(d.pre, "number_of_L2s")
    && RunsShaped(ReadCounts(d.pre), y)
  }

  ghost predicate RunsShaped(p: Counts, y: Layout) {
    && |y.l1Dirs| == RunCount(p.homoL1Dirs, p.l1Dirs) <= Reader.SLOTS
    && |y.l2Dirs| == RunCount(p.homoL2Dirs, p.l2Dirs) <= Reader.SLOTS
    && |y.l3s| == RunCount(p.homoL3s, p.l3s) <= Reader.SLOTS
    && |y.nocs| == RunCount(p.homoNocs, p.nocs) <= Reader.SLOTS
    && AllMatch(L1DirKind, y.l1Dirs) && AllMatch(L2DirKind, y.l2Dirs)
    && AllMatch(L3Kind, y.l3s) && AllMatch(NocKind, y.nocs) && Singles(y.mc, y.niu, y.pcie, y.flashc)
    && NoneMatch(McKind, y.l1Dirs) && NoneMatch(McKind, y.l2Dirs) && NoneMatch(McKind, y.l3s)
    && NoneMatch(McKind, y.nocs) && NoneMatch(L2Kind, y.TailComponents())
  }

  function Expanded(c: Config, d: Doc): seq<Elem>
    requires c.NumCores() > 0
  {
    ExpandedFront(c, d) + PassFirst(c, ExpandedL2(c, d))
  }

  lemma KeepsNoParams(c: Config, es: seq<Elem>)
    requires c.NumCores() > 0 && NoParams(es)
    ensures NoParams(RefreshAll(c, es)) && NoParams(PassFirst(c, es))
  {
    forall i | 0 <= i < |es| ensures Refresh(c, es[i]).tag == es[i].tag { RefreshKeeps(c, es[i]); }
    hide Refresh;
    if es != [] {
      forall i | 0 <= i < |es| ensures PassFirst(c, es)[i].tag == es[i].tag {
        if i > 0 {
          assert PassFirst(c, es)[i] == Refresh(c, es[1..][i - 1]);
        }
      }
    }
  }

  lemma ExpandedNoParams(c: Config, d: Doc)
    requires c.NumCores() > 0 && d.core.tag == Component && d.l2.tag == Component
    requires NoParams(d.mid) && NoParams(d.tail)
    ensures NoParams(PassFirst(c, CoreCopies(c, Refresh(c, d.core))) + RefreshAll(c, d.mid)
                     + PassFirst(c, ExpandedL2(c, d)))
  {
    RefreshKeeps(c, d.core);
    RefreshKeeps(c, d.l2);
    hide Refresh;
    KeepsNoParams(c, CoreCopies(c, Refresh(c, d.core)));
    KeepsNoParams(c, d.mid);
    KeepsNoParams(c, ExpandedL2(c, d));
  }

  /** The counts the reader finds are the template's, with the numbers of cores and L2s filled in. */
  lemma ExpandedCounts(c: Config, d: Doc, y: Layout)
    requires c.NumCores() > 0 && Shaped(d, y)
    ensures ReadCounts(Expanded(c, d)) == ReadCounts(d.pre).(cores := c.NumCores(), l2s := c.NumL2())
  {
    var rest := PassFirst(c, CoreCopies(c, Refresh(c, d.core))) + RefreshAll(c, d.mid) + PassFirst(c, ExpandedL2(c, d));
    assert Expanded(c, d) == RefreshAll(c, d.pre) + rest;
    ExpandedNoParams(c, d);
    hide RefreshAll, PassFirst, IntParam, RunsShaped, ExpandedL2, ExpandedFront, CoreCopies, Shaped, Expanded;
    ParamAfter(c, d.pre, rest, "number_of_cores");
    ParamAfter(c, d.pre, rest, "number_of_L1Directories");
    ParamAfter(c, d.pre, rest, "number_of_L2Directories");
    ParamAfter(c, d.pre, rest, "number_of_L2s");
    ParamAfter(c, d.pre, rest, "number_of_L3s");
    ParamAfter(c, d.pre, rest, "number_of_NoCs");
    ParamAfter(c, d.pre, rest, "homogeneous_cores");
    ParamAfter(c, d.pre, rest, "homogeneous_L1Directories");
    ParamAfter(c, d.pre, rest, "homogeneous_L2Directories");
    ParamAfter(c, d.pre, rest, "homogeneous_L2s");
    ParamAfter(c, d.pre, rest, "homogeneous_L3s");
    ParamAfter(c, d.pre, rest, "homogeneous_NoCs");
  }

  lemma ParamAfter(c: Config, pre: seq<Elem>, rest: seq<Elem>, name: string)
    requires c.NumCores() > 0 && NoParams(rest) && |name| > 10
    requires HasParam(pre, "number_of_cores") && HasParam(pre, "number_of_L2s")
    ensures IntParam(RefreshAll(c, pre) + rest, name, 1) ==
            if name == "number_of_cores" then c.NumCores()
            else if name == "number_of_L2s" then c.NumL2() else IntParam(pre, name, 1)
  {
    RefreshedParam(c, pre, name, 1);
    IntParamConcat(RefreshAll(c, pre), rest, name, 1);
    IntParamNone(rest, name, IntParam(RefreshAll(c, pre), name, 1));
  }

  lemma PassFirstConcat(c: Config, a: seq<Elem>, b: seq<Elem>)
    requires c.NumCores() > 0 && a != []
    ensures PassFirst(c, a + b) == PassFirst(c, a) + RefreshAll(c, b)
  {
    hide Refresh;
    assert (a + b)[1..] == a[1..] + b;
    assert RefreshAll(c, a[1..] + b) == RefreshAll(c, a[1..]) + RefreshAll(c, b);
  }

  lemma RefreshConcat(c: Config, a: seq<Elem>, b: seq<Elem>)
    requires c.NumCores() > 0
    ensures RefreshAll(c, a + b) == RefreshAll(c, a) + RefreshAll(c, b)
  {
    hide Refresh;
  }

  /** The first component of a list keeps its place and its name when the list is passed over. */
  lemma FirstComponent(c: Config, es: seq<Elem>)
    requires c.NumCores() > 0 && Components(es) != []
    ensures var r := Components(PassFirst(c, es)); r != [] && r[0].name == Components(es)[0].name
  {
    ComponentsRefreshed(c, es[1..]);
    assert PassFirst(c, es)[1..] == RefreshAll(c, es[1..]);
    if es[0].tag != Component {
      RefreshKeeps(c, Components(es[1..])[0]);
    }
    hide Refresh;
  }

  ghost predicate SameTests(a: seq<Elem>, b: seq<Elem>) {
    |a| == |b| && forall i :: 0 <= i < |a| ==> a[i].name == b[i].name && a[i].id == b[i].id
  }

  lemma RefreshSameTests(c: Config, es: seq<Elem>)
    requires c.NumCores() > 0
    ensures SameTests(RefreshAll(c, es), es) && SameTests(PassFirst(c, es), es)
  {
    forall i | 0 <= i < |es| ensures Refresh(c, es[i]).name == es[i].name && Refresh(c, es[i]).id == es[i].id {
      RefreshKeeps(c, es[i]);
    }
    hide Refresh;
    forall i | 1 <= i < |es| ensures PassFirst(c, es)[i] == Refresh(c, es[i]) {
      assert PassFirst(c, es)[i] == RefreshAll(c, es[1..])[i - 1];
    }
  }

  lemma TestsKept(k: Kind, a: seq<Elem>, b: seq<Elem>)
    requires SameTests(a, b)
    ensures AllMatch(k, a) <==> AllMatch(k, b)
    ensures NoneMatch(k, a) <==> NoneMatch(k, b)
  {
    assert forall i :: 0 <= i < |a| ==> Matches(k, a[i]) == Matches(k, b[i]);
  }

  /** How many siblings behind the L2 template its private copies end up behind. */
  function Lead(c: Config, d: Doc): (k: nat)
    requires c.NumCores() > 0
    ensures k <= |d.tail|
  {
    if c.NumCores() - 1 <= |d.tail| then c.NumCores() - 1 else |d.tail|
  }

  /** The copies land behind comments and statistics only. */
  predicate InPlace(c: Config, d: Doc)
    requires c.NumCores() > 0
  {
    c.privateL2 ==> Components(d.tail[..Lead(c, d)]) == []
  }

  /** The L2s of an expansion in place. */
  function ExpectedL2s(c: Config, d: Doc): seq<Elem>
    requires c.NumCores() > 0
  {
    var l2 := Refresh(c, d.l2);
    if !c.privateL2 then [SharedL2(l2)]
    else if Lead(c, d) == 0 then PassFirst(c, L2Copies(c, l2))
    else RefreshAll(c, L2Copies(c, l2))
  }

  lemma StayComponents(c: Config, es: seq<Elem>)
    requires c.NumCores() > 0 && forall i :: 0 <= i < |es| ==> es[i].tag == Component
    ensures Components(RefreshAll(c, es)) == RefreshAll(c, es) && Components(PassFirst(c, es)) == PassFirst(c, es)
  {
    hide Refresh;
    AllComponents(es);
    ComponentsRefreshed(c, es);
    if es != [] {
      AllComponents(es[1..]);
      ComponentsRefreshed(c, es[1..]);
      assert PassFirst(c, es)[1..] == RefreshAll(c, es[1..]);
    }
  }

  lemma L2sAreComponents(c: Config, d: Doc)
    requires c.NumCores() > 0 && d.l2.tag == Component
    ensures Components(ExpectedL2s(c, d)) == ExpectedL2s(c, d)
  {
    RefreshKeeps(c, d.l2);
    hide Refresh;
    StayComponents(c, L2Copies(c, Refresh(c, d.l2)));
    AllComponents([SharedL2(Refresh(c, d.l2))]);
  }

  lemma SharedComponents(c: Config, d: Doc)
    requires c.NumCores() > 0 && d.l2.tag == Component && !c.privateL2
    ensures Components(PassFirst(c, ExpandedL2(c, d))) == ExpectedL2s(c, d) + RefreshAll(c, Components(d.tail))
  {
    L2sAreComponents(c, d);
    hide Refresh, Components;
    var one := ExpectedL2s(c, d);
    assert PassFirst(c, one) == one;
    PassFirstConcat(c, one, d.tail);
    ComponentsConcat(one, RefreshAll(c, d.tail));
    ComponentsRefreshed(c, d.tail);
  }

  lemma PrivateComponents(c: Config, d: Doc)
    requires c.NumCores() > 0 && d.l2.tag == Component && c.privateL2 && InPlace(c, d)
    ensures Components(PassFirst(c, ExpandedL2(c, d))) == ExpectedL2s(c, d) + RefreshAll(c, Components(d.tail))
  {
    L2sAreComponents(c, d);
    hide Refresh, Components;
    var k := Lead(c, d);
    var copies := L2Copies(c, Refresh(c, d.l2));
    var near, far := d.tail[..k], d.tail[k..];
    assert d.tail == near + far;
    ComponentsConcat(near, far);
    ComponentsRefreshed(c, far);
    assert [] + Components(far) == Components(far);
    if k == 0 {
      assert ExpandedL2(c, d) == copies + far;
      PassFirstConcat(c, copies, far);
      ComponentsConcat(PassFirst(c, copies), RefreshAll(c, far));
    } else {
      assert ExpandedL2(c, d) == near + (copies + far);
      hide ExpandedL2, PassFirst, RefreshAll, L2Copies;
      PastNear(c, near, copies + far);
      RefreshConcat(c, copies, far);
      ComponentsConcat(RefreshAll(c, copies), RefreshAll(c, far));
    }
  }

  lemma PastNear(c: Config, near: seq<Elem>, more: seq<Elem>)
    requires c.NumCores() > 0 && near != [] && Components(near) == []
    ensures Components(PassFirst(c, near + more)) == Components(RefreshAll(c, more))
  {
    hide PassFirst, RefreshAll, Components;
    PassFirstConcat(c, near, more);
    NearComponents(c, near);
    ComponentsConcat(PassFirst(c, near), RefreshAll(c, more));
    assert [] + Components(RefreshAll(c, more)) == Components(RefreshAll(c, more));
  }

  lemma NearComponents(c: Config, near: seq<Elem>)
    requires c.NumCores() > 0 && near != [] && Components(near) == []
    ensures Components(PassFirst(c, near)) == []
  {
    ComponentsRefreshed(c, near[1..]);
    assert PassFirst(c, near)[1..] == RefreshAll(c, near[1..]);
  }

  /** Out of place, the first component where the L2s should begin is one of their followers. */
  lemma DisplacedComponents(c: Config, d: Doc)
    requires c.NumCores() > 0 && c.privateL2 && !InPlace(c, d)
    requires NoneMatch(L2Kind, Components(d.tail))
    ensures var r := Components(PassFirst(c, ExpandedL2(c, d))); r != [] && !Matches(L2Kind, r[0])
  {
    var k := Lead(c, d);
    var copies := L2Copies(c, Refresh(c, d.l2));
    var near, far := d.tail[..k], d.tail[k..];
    hide Refresh, Contains;
    assert d.tail == near + far;
    ComponentsConcat(near, far);
    assert ExpandedL2(c, d) == near + (copies + far);
    PassFirstConcat(c, near, copies + far);
    ComponentsConcat(PassFirst(c, near), RefreshAll(c, copies + far));
    FirstComponent(c, near);
    assert Components(d.tail)[0] == Components(near)[0];
  }

  // ----- The tests on the copies -----

  lemma ControllerAt(s: string, i: nat)
    requires i <= |s| && StartsWith(s[i..], "system.mc")
    ensures i + 8 < |s| && s[i + 1] == 'y' && s[i + 7] == 'm'
  {
    var t := s[i..];
    assert t[1] == t[..9][1] && t[7] == t[..9][7];
  }

  /** A text that spells "system." and goes on with another letter does not contain the controller's id. */
  lemma NotController(letter: char, rest: string)
    requires letter != 'm' && letter != 'y' && 'y' !in rest
    ensures !Contains("system." + [letter] + rest, "system.mc")
  {
    var s := "system." + [letter] + rest;
    assert forall j :: 8 <= j < |s| ==> s[j] == rest[j - 8];
    assert s[7] == letter;
    if Contains(s, "system.mc") {
      var i :| 0 <= i <= |s| && StartsWith(s[i..], "system.mc");
      ControllerAt(s, i);
    }
  }

  lemma CoreCopyTests(c: Config, core: Elem)
    ensures var es := CoreCopies(c, core);
            && AllMatch(CoreKind, es) && NoneMatch(L1DirKind, es) && NoneMatch(L2DirKind, es)
            && NoneMatch(L2Kind, es) && NoneMatch(McKind, es)
  {
    forall k | 0 <= k < c.NumCores()
      ensures var e := CoreCopies(c, core)[k];
              && Matches(CoreKind, e) && !Matches(L1DirKind, e) && !Matches(L2DirKind, e)
              && !Matches(L2Kind, e) && !Matches(McKind, e)
    {
      CoreNameTests(ToString(k));
      hide Contains;
    }
  }

  lemma CoreNameTests(num: string)
    requires forall i :: 0 <= i < |num| ==> IsDigit(num[i]) || num[i] == '-'
    ensures Contains("core" + num, "core") && !Contains("core" + num, "L2")
    ensures var id := "system.core" + num;
            !Contains(id, "L1Directory") && !Contains(id, "L2Directory") && !Contains(id, "system.mc")
  {
    hide Contains;
    ContainsPrefix("core", num);
    NeedsChar("core" + num, "L2", 'L');
    NeedsChar("system.core" + num, "L1Directory", 'L');
    NeedsChar("system.core" + num, "L2Directory", 'L');
    NotController('c', "ore" + num);
    assert "system.core" + num == "system." + ['c'] + ("ore" + num);
  }

  lemma L2CopyTest(l2: Elem, k: nat)
    ensures Matches(L2Kind, L2Copy(l2, k)) && !Matches(McKind, L2Copy(l2, k))
  {
    var num := ToString(k);
    ContainsPrefix("L2", num);
    NotController('L', "2" + num);
    assert "system.L2" + num == "system." + ['L'] + ("2" + num);
  }

  lemma ExpectedL2Tests(c: Config, d: Doc)
    requires c.NumCores() > 0
    ensures AllMatch(L2Kind, ExpectedL2s(c, d)) && NoneMatch(McKind, ExpectedL2s(c, d))
    ensures |ExpectedL2s(c, d)| == if c.privateL2 then c.NumCores() else 1
  {
    var l2 := Refresh(c, d.l2);
    hide Refresh, Matches, L2Copy, SharedL2;
    if c.privateL2 {
      var es := L2Copies(c, l2);
      forall k | 0 <= k < |es| ensures Matches(L2Kind, es[k]) && !Matches(McKind, es[k]) { L2CopyTest(l2, k); }
      RefreshSameTests(c, es);
      TestsKept(L2Kind, ExpectedL2s(c, d), es);
      TestsKept(McKind, ExpectedL2s(c, d), es);
    } else {
      SharedTest(l2);
    }
  }

  lemma SharedTest(l2: Elem)
    ensures Matches(L2Kind, SharedL2(l2)) && !Matches(McKind, SharedL2(l2))
  {
    L2CopyTest(l2, 0);
    assert "L2" + ToString(0) == "L20" && "system.L2" + ToString(0) == "system.L20";
  }

  // ----- The theorem -----

  function ExpectedFront(c: Config, d: Doc, y: Layout): Front
    requires c.NumCores() > 0
  {
    Front(PassFirst(c, CoreCopies(c, Refresh(c, d.core))), RefreshAll(c, y.l1Dirs), RefreshAll(c, y.l2Dirs))
  }

  function ExpectedBack(c: Config, d: Doc, y: Layout): Back
    requires c.NumCores() > 0
  {
    Back(ExpectedL2s(c, d), RefreshAll(c, y.l3s), RefreshAll(c, y.nocs))
  }

  /** What a user can check of a configuration and a template before running the pipeline. */
  predicate Compatible(c: Config, d: Doc)
    requires c.NumCores() > 0
  {
    var p := ReadCounts(d.pre);
    && c.NumCores() <= Reader.SLOTS
    && (p.homoCores == 1 ==> c.NumCores() == 1)
    && InPlace(c, d)
    && (c.privateL2 && p.homoL2s == 1 ==> c.NumCores() == 1)
    && (!c.privateL2 && !c.sharedL2 ==> p.homoL2s == 1)
  }

  lemma BehindParameters(pre: seq<Elem>, es: seq<Elem>, more: seq<Elem>)
    requires Components(pre) == [] && Components(es) == es
    ensures Components(pre + es + more) == es + Components(more)
  {
    hide Components;
    ComponentsConcat(pre + es, more);
    ComponentsConcat(pre, es);
    assert [] + es == es;
  }

  lemma FrontComponents(c: Config, d: Doc, y: Layout)
    requires c.NumCores() > 0 && Shaped(d, y)
    ensures var f := ExpectedFront(c, d, y);
            Components(ExpandedFront(c, d)) == f.cores + f.l1Dirs + f.l2Dirs
  {
    RefreshKeeps(c, d.core);
    hide Refresh, Matches, RunsShaped, ReadCounts;
    var copies := CoreCopies(c, Refresh(c, d.core));
    var cores := PassFirst(c, copies);
    StayComponents(c, copies);
    ComponentsRefreshed(c, d.pre);
    ComponentsRefreshed(c, d.mid);
    RefreshConcat(c, y.l1Dirs, y.l2Dirs);
    hide Components, RefreshAll, PassFirst, CoreCopies;
    BehindParameters(RefreshAll(c, d.pre), cores, RefreshAll(c, d.mid));
    assert cores + (RefreshAll(c, y.l1Dirs) + RefreshAll(c, y.l2Dirs)) ==
           cores + RefreshAll(c, y.l1Dirs) + RefreshAll(c, y.l2Dirs);
  }

  lemma InOrderAccepted(p: Counts, f: Front, b: Back, y: Layout)
    requires |f.cores| == CoreCount(p) && |f.l1Dirs| == RunCount(p.homoL1Dirs, p.l1Dirs)
    requires |f.l2Dirs| == RunCount(p.homoL2Dirs, p.l2Dirs) && |b.l2s| == RunCount(p.homoL2s, p.l2s)
    requires |b.l3s| == RunCount(p.homoL3s, p.l3s) && |b.nocs| == RunCount(p.homoNocs, p.nocs)
    requires |f.cores| <= Reader.SLOTS && |f.l1Dirs| <= Reader.SLOTS && |f.l2Dirs| <= Reader.SLOTS
    requires 0 < |b.l2s| <= Reader.SLOTS && |b.l3s| <= Reader.SLOTS && |b.nocs| <= Reader.SLOTS
    requires AllMatch(CoreKind, f.cores) && AllMatch(L1DirKind, f.l1Dirs) && AllMatch(L2DirKind, f.l2Dirs)
    requires AllMatch(L2Kind, b.l2s) && AllMatch(L3Kind, b.l3s) && AllMatch(NocKind, b.nocs)
    requires Singles(y.mc, y.niu, y.pcie, y.flashc)
    ensures var rest := [y.mc, y.niu, y.pcie, y.flashc] + y.extra;
            Walk(p, (f.cores + f.l1Dirs + f.l2Dirs) + (b.l2s + b.l3s + b.nocs + rest)) ==
            Ok(Some(Slots(f, b, y.mc, y.niu, y.pcie, y.flashc)))
  {
    hide Matches, WalkFront, WalkBack, WalkSingles, AllMatch, Singles;
    var rest := [y.mc, y.niu, y.pcie, y.flashc] + y.extra;
    var front := f.cores + f.l1Dirs + f.l2Dirs;
    var comps := front + (b.l2s + b.l3s + b.nocs + rest);
    FrontAccepts(p, f, b.l2s + b.l3s + b.nocs + rest);
    BackAccepts(p, front, b, rest);
    var before := front + b.l2s + b.l3s + b.nocs;
    assert comps == before + rest;
    assert |before| == RunsLength(p);
    SinglesAccept(before, f, b, y.mc, y.niu, y.pcie, y.flashc, y.extra);
  }

  /** A second core behind the only one a homogeneous description should have. */
  lemma SecondCoreRejected(p: Counts, comps: seq<Elem>)
    requires p.homoCores == 1 && RunCount(p.homoNocs, p.nocs) <= Reader.SLOTS && RunCount(p.homoL2s, p.l2s) > 0
    requires |comps| > 1 && !Matches(L1DirKind, comps[1]) && !Matches(L2DirKind, comps[1]) && !Matches(L2Kind, comps[1])
    ensures Walk(p, comps).Fail?
  {
    hide Matches, Walk, RunCount;
    if Walk(p, comps).Ok? {
      AcceptedMeans(p, comps);
    }
  }

  /** More components in front of the controller than the counts tell. */
  lemma LateControllerRejected(p: Counts, before: seq<Elem>, after: seq<Elem>)
    requires NoneMatch(McKind, before) && (RunsLength(p) < |before| || 6 * Reader.SLOTS < |before|)
    requires RunCount(p.homoNocs, p.nocs) <= Reader.SLOTS
    ensures Walk(p, before + after).Fail?
  {
    hide Matches, Walk, RunCount;
    if Walk(p, before + after).Ok? {
      AcceptedMeans(p, before + after);
    }
  }

  lemma WrongL2Rejected(p: Counts, front: seq<Elem>, back: seq<Elem>)
    requires |front| == FrontLength(p) && back != [] && !Matches(L2Kind, back[0])
    requires RunCount(p.homoL2s, p.l2s) > 0 && RunCount(p.homoNocs, p.nocs) <= Reader.SLOTS
    ensures Walk(p, front + back).Fail?
  {
    hide Matches, Walk, RunCount, FrontLength;
    assert (front + back)[|front|] == back[0];
    if Walk(p, front + back).Ok? {
      AcceptedMeans(p, front + back);
    }
  }

  lemma ManyCoresRejected(p: Counts, comps: seq<Elem>)
    requires comps != [] && CoreCount(p) > Reader.SLOTS && RunCount(p.homoNocs, p.nocs) <= Reader.SLOTS
    ensures Walk(p, comps).Fail?
  {
    hide Matches, Walk, RunCount, CoreCount;
    if Walk(p, comps).Ok? {
      AcceptedMeans(p, comps);
    }
  }

  /** The expanded description, seen from the reader. */
  lemma ExpandedSeen(c: Config, d: Doc, y: Layout)
    requires c.NumCores() > 0 && Shaped(d, y)
    ensures var f := ExpectedFront(c, d, y);
            Parse(Expanded(c, d)) ==
            Walk(FoundCounts(c, d), (f.cores + f.l1Dirs + f.l2Dirs) + Components(PassFirst(c, ExpandedL2(c, d))))
  {
    hide Walk, Refresh, Matches;
    ExpandedCounts(c, d, y);
    FrontComponents(c, d, y);
    ComponentsConcat(ExpandedFront(c, d), PassFirst(c, ExpandedL2(c, d)));
  }

  lemma BackInPlace(c: Config, d: Doc, y: Layout)
    requires c.NumCores() > 0 && Shaped(d, y) && InPlace(c, d)
    ensures var b := ExpectedBack(c, d, y);
            Components(PassFirst(c, ExpandedL2(c, d))) ==
            b.l2s + b.l3s + b.nocs
            + ([Refresh(c, y.mc), Refresh(c, y.niu), Refresh(c, y.pcie), Refresh(c, y.flashc)] + RefreshAll(c, y.extra))
  {
    hide Matches, RunsShaped, ReadCounts, ExpandedL2, Refresh, Components;
    if c.privateL2 {
      PrivateComponents(c, d);
    } else {
      SharedComponents(c, d);
    }
    hide ExpectedL2s;
    var four := [y.mc, y.niu, y.pcie, y.flashc];
    RefreshConcat(c, y.l3s + y.nocs, four + y.extra);
    RefreshConcat(c, y.l3s, y.nocs);
    RefreshConcat(c, four, y.extra);
    assert RefreshAll(c, four) == [Refresh(c, y.mc), Refresh(c, y.niu), Refresh(c, y.pcie), Refresh(c, y.flashc)];
  }

  lemma FrontTests(c: Config, d: Doc, y: Layout)
    requires c.NumCores() > 0 && Shaped(d, y)
    ensures var f := ExpectedFront(c, d, y);
            && |f.cores| == c.NumCores() && |f.l1Dirs| == |y.l1Dirs| && |f.l2Dirs| == |y.l2Dirs|
            && AllMatch(CoreKind, f.cores) && AllMatch(L1DirKind, f.l1Dirs) && AllMatch(L2DirKind, f.l2Dirs)
            && NoneMatch(McKind, f.cores) && NoneMatch(McKind, f.l1Dirs) && NoneMatch(McKind, f.l2Dirs)
            && NoneMatch(L1DirKind, f.cores) && NoneMatch(L2DirKind, f.cores) && NoneMatch(L2Kind, f.cores)
  {
    hide Matches, Refresh, AllMatch, NoneMatch, CoreCopy;
    var f := ExpectedFront(c, d, y);
    var copies := CoreCopies(c, Refresh(c, d.core));
    CoreCopyTests(c, Refresh(c, d.core));
    RefreshSameTests(c, copies);
    TestsKept(CoreKind, f.cores, copies);
    TestsKept(McKind, f.cores, copies);
    TestsKept(L1DirKind, f.cores, copies);
    TestsKept(L2DirKind, f.cores, copies);
    TestsKept(L2Kind, f.cores, copies);
    RefreshSameTests(c, y.l1Dirs);
    TestsKept(L1DirKind, f.l1Dirs, y.l1Dirs);
    TestsKept(McKind, f.l1Dirs, y.l1Dirs);
    RefreshSameTests(c, y.l2Dirs);
    TestsKept(L2DirKind, f.l2Dirs, y.l2Dirs);
    TestsKept(McKind, f.l2Dirs, y.l2Dirs);
  }

  lemma RefreshTest(c: Config, k: Kind, e: Elem)
    requires c.NumCores() > 0
    ensures Matches(k, Refresh(c, e)) == Matches(k, e)
  {
    RefreshKeeps(c, e);
    hide Refresh, Contains;
  }

  lemma SinglesKept(c: Config, y: Layout)
    requires c.NumCores() > 0 && Singles(y.mc, y.niu, y.pcie, y.flashc)
    ensures Singles(Refresh(c, y.mc), Refresh(c, y.niu), Refresh(c, y.pcie), Refresh(c, y.flashc))
  {
    hide Refresh, Matches;
    RefreshTest(c, McKind, y.mc);
    RefreshTest(c, NiuKind, y.niu);
    RefreshTest(c, PcieKind, y.pcie);
    RefreshTest(c, FlashKind, y.flashc);
  }

  lemma BackTests(c: Config, d: Doc, y: Layout)
    requires c.NumCores() > 0 && Shaped(d, y)
    ensures var b := ExpectedBack(c, d, y);
            && |b.l2s| == (if c.privateL2 then c.NumCores() else 1) && |b.l3s| == |y.l3s| && |b.nocs| == |y.nocs|
            && AllMatch(L2Kind, b.l2s) && AllMatch(L3Kind, b.l3s) && AllMatch(NocKind, b.nocs)
            && NoneMatch(McKind, b.l2s) && NoneMatch(McKind, b.l3s) && NoneMatch(McKind, b.nocs)
  {
    hide Refresh, AllMatch, NoneMatch, ExpectedL2s, Matches, Components, ReadCounts;
    var b := ExpectedBack(c, d, y);
    ExpectedL2Tests(c, d);
    RefreshSameTests(c, y.l3s);
    TestsKept(L3Kind, b.l3s, y.l3s);
    TestsKept(McKind, b.l3s, y.l3s);
    RefreshSameTests(c, y.nocs);
    TestsKept(NocKind, b.nocs, y.nocs);
    TestsKept(McKind, b.nocs, y.nocs);
  }

  /** Runs of components that each pass their test, as long as the counts tell but for cores and L2s. */
  ghost predicate Ordered(p: Counts, f: Front, b: Back) {
    && |f.l1Dirs| == RunCount(p.homoL1Dirs, p.l1Dirs) <= Reader.SLOTS
    && |f.l2Dirs| == RunCount(p.homoL2Dirs, p.l2Dirs) <= Reader.SLOTS
    && |b.l3s| == RunCount(p.homoL3s, p.l3s) <= Reader.SLOTS
    && |b.nocs| == RunCount(p.homoNocs, p.nocs) <= Reader.SLOTS
    && AllMatch(CoreKind, f.cores) && AllMatch(L1DirKind, f.l1Dirs) && AllMatch(L2DirKind, f.l2Dirs)
    && AllMatch(L2Kind, b.l2s) && AllMatch(L3Kind, b.l3s) && AllMatch(NocKind, b.nocs)
    && NoneMatch(McKind, f.cores) && NoneMatch(McKind, f.l1Dirs) && NoneMatch(McKind, f.l2Dirs)
    && NoneMatch(McKind, b.l2s) && NoneMatch(McKind, b.l3s) && NoneMatch(McKind, b.nocs)
    && NoneMatch(L1DirKind, f.cores) && NoneMatch(L2DirKind, f.cores) && NoneMatch(L2Kind, f.cores)
  }

  /** The counts the reader finds in an expanded description. */
  function FoundCounts(c: Config, d: Doc): Counts {
    ReadCounts(d.pre).(cores := c.NumCores(), l2s := c.NumL2())
  }

  lemma ExpandedOrdered(c: Config, d: Doc, y: Layout)
    requires c.NumCores() > 0 && Shaped(d, y)
    ensures Ordered(FoundCounts(c, d), ExpectedFront(c, d, y), ExpectedBack(c, d, y))
    ensures |ExpectedFront(c, d, y).cores| == c.NumCores()
    ensures |ExpectedBack(c, d, y).l2s| == if c.privateL2 then c.NumCores() else 1
  {
    FrontTests(c, d, y);
    BackTests(c, d, y);
    hide Refresh, Matches, AllMatch, NoneMatch, ExpectedL2s, Components, ReadCounts, RunCount;
  }

  lemma FoundRunCounts(c: Config, d: Doc)
    requires 0 < c.NumCores() < 0x8000_0000
    ensures var p, q := FoundCounts(c, d), ReadCounts(d.pre);
            && p.homoCores == q.homoCores && p.homoL2s == q.homoL2s
            && CoreCount(p) == (if q.homoCores == 1 then 1 else c.NumCores())
            && RunCount(p.homoL2s, p.l2s) == if q.homoL2s == 1 then 1 else c.NumL2()
  {
    hide ReadCounts;
  }

  /** A compatible pair is read completely, every slot from the component of its rank in its run. */
  lemma CompatibleAccepted(c: Config, d: Doc, y: Layout)
    requires c.NumCores() > 0 && Shaped(d, y) && Compatible(c, d)
    ensures Parse(Run(c, State(d.Children(), 0, 0)).children) ==
            Ok(Some(Slots(ExpectedFront(c, d, y), ExpectedBack(c, d, y),
                          Refresh(c, y.mc), Refresh(c, y.niu), Refresh(c, y.pcie), Refresh(c, y.flashc))))
  {
    hide Run, Walk, Refresh, Matches, Components, AllMatch, NoneMatch, Singles, Parse, ReadCounts, RefreshAll,
         ExpectedFront, ExpectedBack, ExpandedL2, ExpandedFront, PassFirst, RunCount, CoreCount;
    ExpansionLaw(c, d);
    ExpandedSeen(c, d, y);
    BackInPlace(c, d, y);
    ExpandedOrdered(c, d, y);
    SinglesKept(c, y);
    FoundRunCounts(c, d);
    var y' := Layout([], [], [], [], Refresh(c, y.mc), Refresh(c, y.niu), Refresh(c, y.pcie), Refresh(c, y.flashc),
                     RefreshAll(c, y.extra));
    InOrderAccepted(FoundCounts(c, d), ExpectedFront(c, d, y), ExpectedBack(c, d, y), y');
  }

  /** Too many cores or L2s for the counts, with everything in order. */
  lemma ShortCountsRejected(p: Counts, f: Front, b: Back, rest: seq<Elem>)
    requires Ordered(p, f, b)
    requires CoreCount(p) + RunCount(p.homoL2s, p.l2s) < |f.cores| + |b.l2s|
    ensures Walk(p, (f.cores + f.l1Dirs + f.l2Dirs) + (b.l2s + b.l3s + b.nocs + rest)).Fail?
  {
    hide Walk, Matches, RunCount, CoreCount;
    var before := f.cores + f.l1Dirs + f.l2Dirs + (b.l2s + b.l3s + b.nocs);
    assert (f.cores + f.l1Dirs + f.l2Dirs) + (b.l2s + b.l3s + b.nocs + rest) == before + rest;
    LateControllerRejected(p, before, rest);
  }

  /** Every other pair is refused. */
  lemma IncompatibleRejected(c: Config, d: Doc, y: Layout)
    requires 0 < c.NumCores() && Shaped(d, y) && !Compatible(c, d)
    ensures Parse(Run(c, State(d.Children(), 0, 0)).children).Fail?
  {
    if c.NumCores() > 6 * Reader.SLOTS {
      HugeRejected(c, d, y);
    } else {
      ModestRejected(c, d, y);
    }
  }

  /** However the counts wrap around, the controller is not found among so many cores. */
  lemma HugeRejected(c: Config, d: Doc, y: Layout)
    requires c.NumCores() > 6 * Reader.SLOTS && Shaped(d, y)
    ensures Parse(Run(c, State(d.Children(), 0, 0)).children).Fail?
  {
    hide Run, Walk, Refresh, Matches, Components, AllMatch, NoneMatch, Singles, Parse, ReadCounts, RefreshAll,
         ExpectedFront, ExpectedBack, ExpandedL2, ExpandedFront, PassFirst, RunCount, CoreCount, RunsShaped;
    ExpansionLaw(c, d);
    ExpandedSeen(c, d, y);
    ExpandedOrdered(c, d, y);
    var f := ExpectedFront(c, d, y);
    var back := Components(PassFirst(c, ExpandedL2(c, d)));
    var after := f.l1Dirs + f.l2Dirs + back;
    assert (f.cores + f.l1Dirs + f.l2Dirs) + back == f.cores + after;
    LateControllerRejected(FoundCounts(c, d), f.cores, after);
  }

  lemma ModestRejected(c: Config, d: Doc, y: Layout)
    requires 0 < c.NumCores() <= 6 * Reader.SLOTS && Shaped(d, y) && !Compatible(c, d)
    ensures Parse(Run(c, State(d.Children(), 0, 0)).children).Fail?
  {
    hide Run, Walk, Refresh, Matches, Components, AllMatch, Singles, Parse, ReadCounts, RefreshAll,
         ExpectedFront, ExpectedBack, ExpandedL2, ExpandedFront, PassFirst, RunCount, CoreCount, RunsShaped;
    ExpansionLaw(c, d);
    ExpandedSeen(c, d, y);
    ExpandedOrdered(c, d, y);
    FoundRunCounts(c, d);
    var f, b := ExpectedFront(c, d, y), ExpectedBack(c, d, y);
    var front := f.cores + f.l1Dirs + f.l2Dirs;
    var back := Components(PassFirst(c, ExpandedL2(c, d)));
    var p := FoundCounts(c, d);
    if InPlace(c, d) {
      BackInPlace(c, d, y);
    }
    if p.homoCores == 1 && c.NumCores() > 1 && RunCount(p.homoL2s, p.l2s) > 0 {
      assert (front + back)[1] == f.cores[1];
      SecondCoreRejected(p, front + back);
    } else if p.homoCores != 1 && c.NumCores() > Reader.SLOTS {
      ManyCoresRejected(p, front + back);
    } else if !InPlace(c, d) {
      TailNotL2(d, y);
      DisplacedComponents(c, d);
      WrongL2Rejected(p, front, back);
    } else {
      var rest := [Refresh(c, y.mc), Refresh(c, y.niu), Refresh(c, y.pcie), Refresh(c, y.flashc)] + RefreshAll(c, y.extra);
      ShortCountsRejected(p, f, b, rest);
    }
  }

  lemma TailNotL2(d: Doc, y: Layout)
    requires Shaped(d, y)
    ensures NoneMatch(L2Kind, Components(d.tail))
  {
    hide Matches;
  }

  // ----- A smallest template in the expected order -----

  function Count(name: string): Elem { Elem(Param, Some(name), None, None, []) }

  function Named(name: string): Elem { Elem(Component, Some(name), None, None, []) }

  function Identified(id: string): Elem { Elem(Component, None, Some(id), None, []) }

  /** One component of each kind, and every flag at its default. */
  function Smallest(): Doc {
    Doc([Count("number_of_cores"), Count("number_of_L2s")], Named("core"),
        [Identified("L1Directory"), Identified("L2Directory")], Named("L2"),
        [Named("L3"), Named("noc"), Identified("system.mc"), Identified("system.niu"), Identified("system.pcie"),
         Identified("system.flashc")])
  }

  function SmallestLayout(): Layout {
    Layout([Identified("L1Directory")], [Identified("L2Directory")], [Named("L3")], [Named("noc")],
           Identified("system.mc"), Identified("system.niu"), Identified("system.pcie"),
           Identified("system.flashc"), [])
  }

  lemma Whole(s: string)
    ensures Contains(s, s)
  {
    assert s + "" == s;
    ContainsPrefix(s, "");
  }

  lemma OtherParam(a: string, b: string, name: string, default: int)
    requires name != a && name != b
    ensures IntParam([Count(a), Count(b)], name, default) == default
  {
    assert [Count(a), Count(b)] == [Count(a)] + [Count(b)];
    IntParamConcat([Count(a)], [Count(b)], name, default);
    LastParam(Count(a), name, default);
    LastParam(Count(b), name, default);
  }

  lemma DefaultCounts(a: string, b: string)
    requires a == "number_of_cores" && b == "number_of_L2s"
    ensures var p := ReadCounts([Count(a), Count(b)]);
            && p.homoCores == 1 && p.homoL1Dirs == 1 && p.homoL2Dirs == 1 && p.homoL2s == 1
            && p.homoL3s == 1 && p.homoNocs == 1
  {
    hide IntParam;
    OtherParam(a, b, "homogeneous_cores", 1);
    OtherParam(a, b, "homogeneous_L1Directories", 1);
    OtherParam(a, b, "homogeneous_L2Directories", 1);
    OtherParam(a, b, "homogeneous_L2s", 1);
    OtherParam(a, b, "homogeneous_L3s", 1);
    OtherParam(a, b, "homogeneous_NoCs", 1);
  }

  lemma SmallestRuns(p: Counts)
    requires p.homoL1Dirs == 1 && p.homoL2Dirs == 1 && p.homoL3s == 1 && p.homoNocs == 1
    ensures RunsShaped(p, SmallestLayout())
  {
    hide Matches;
    SmallestMatches();
    SmallestMismatches();
  }

  lemma SmallestMatches()
    ensures var y := SmallestLayout();
            && AllMatch(L1DirKind, y.l1Dirs) && AllMatch(L2DirKind, y.l2Dirs)
            && AllMatch(L3Kind, y.l3s) && AllMatch(NocKind, y.nocs) && Singles(y.mc, y.niu, y.pcie, y.flashc)
  {
    hide Contains;
    Whole("L1Directory");
    Whole("L2Directory");
    Whole("L3");
    Whole("noc");
    Whole("system.mc");
    Whole("system.niu");
    Whole("system.pcie");
    Whole("system.flashc");
  }

  lemma SmallestMismatches()
    ensures var y := SmallestLayout();
            && NoneMatch(McKind, y.l1Dirs) && NoneMatch(McKind, y.l2Dirs) && NoneMatch(McKind, y.l3s)
            && NoneMatch(McKind, y.nocs) && NoneMatch(L2Kind, y.TailComponents())
  {
    hide Contains;
    NeedsChar("L1Directory", "system.mc", '.');
    NeedsChar("L2Directory", "system.mc", '.');
    NeedsChar("L3", "L2", '2');
    NeedsChar("noc", "L2", '2');
  }

  lemma SmallestShaped()
    ensures Shaped(Smallest(), SmallestLayout())
  {
    hide ReadCounts, RunsShaped, Components;
    var d := Smallest();
    DefaultCounts("number_of_cores", "number_of_L2s");
    SmallestRuns(ReadCounts(d.pre));
    AllComponents(d.mid);
    AllComponents(d.tail);
    TwoParams(d.pre);
    assert d.pre[0].name == Some("number_of_cores") && d.pre[1].name == Some("number_of_L2s");
  }

  lemma TwoParams(es: seq<Elem>)
    requires |es| == 2 && es[0].tag == Param && es[1].tag == Param
    ensures Components(es) == []
  {
    assert es[1..][1..] == [];
  }

  /** It is in order, and its flags make it compatible with one core only. */
  lemma SmallestTemplate(c: Config)
    requires c.NumCores() > 0
    ensures Shaped(Smallest(), SmallestLayout())
    ensures Compatible(c, Smallest()) <==> c.NumCores() == 1
  {
    hide ReadCounts, Shaped;
    SmallestShaped();
    DefaultCounts("number_of_cores", "number_of_L2s");
    assert Smallest().tail[..0] == [];
  }

  // ----- A template that is refused for the place of its L2s alone -----

  function Zero(name: string): Elem { Elem(Param, Some(name), None, Some("0"), []) }

  /** The smallest template with heterogeneous cores and L2s. */
  function Heterogeneous(): Doc {
    Smallest().(pre := Smallest().pre + [Zero("homogeneous_cores"), Zero("homogeneous_L2s")])
  }

  lemma ZeroParam(a: string, b: string, name: string, default: int)
    ensures IntParam([Zero(a), Zero(b)], name, default) == if name == a || name == b then 0 else default
  {
    assert [Zero(a), Zero(b)] == [Zero(a)] + [Zero(b)];
    IntParamConcat([Zero(a)], [Zero(b)], name, default);
    LastParam(Zero(a), name, default);
    LastParam(Zero(b), name, IntParam([Zero(a)], name, default));
    assert "0"[1..] == "" && Atoi("0") == 0;
  }

  lemma FlagOf(a: string, b: string, c: string, d: string, name: string)
    requires name != a && name != b
    ensures IntParam([Count(a), Count(b)] + [Zero(c), Zero(d)], name, 1) == if name == c || name == d then 0 else 1
  {
    hide IntParam;
    IntParamConcat([Count(a), Count(b)], [Zero(c), Zero(d)], name, 1);
    OtherParam(a, b, name, 1);
    ZeroParam(c, d, name, 1);
  }

  lemma HeterogeneousCounts(a: string, b: string, c: string, d: string)
    requires a == "number_of_cores" && b == "number_of_L2s" && c == "homogeneous_cores" && d == "homogeneous_L2s"
    ensures var p := ReadCounts([Count(a), Count(b)] + [Zero(c), Zero(d)]);
            && p.homoCores == 0 && p.homoL2s == 0
            && p.homoL1Dirs == 1 && p.homoL2Dirs == 1 && p.homoL3s == 1 && p.homoNocs == 1
  {
    hide IntParam;
    FlagOf(a, b, c, d, "homogeneous_cores");
    FlagOf(a, b, c, d, "homogeneous_L1Directories");
    FlagOf(a, b, c, d, "homogeneous_L2Directories");
    FlagOf(a, b, c, d, "homogeneous_L2s");
    FlagOf(a, b, c, d, "homogeneous_L3s");
    FlagOf(a, b, c, d, "homogeneous_NoCs");
  }

  lemma HeterogeneousShaped()
    ensures Shaped(Heterogeneous(), SmallestLayout())
  {
    hide ReadCounts, RunsShaped, Components;
    var d := Heterogeneous();
    HeterogeneousCounts("number_of_cores", "number_of_L2s", "homogeneous_cores", "homogeneous_L2s");
    SmallestRuns(ReadCounts(d.pre));
    AllComponents(d.mid);
    AllComponents(d.tail);
    TwoParams(Smallest().pre);
    TwoParams([Zero("homogeneous_cores"), Zero("homogeneous_L2s")]);
    ComponentsConcat(Smallest().pre, [Zero("homogeneous_cores"), Zero("homogeneous_L2s")]);
    assert d.pre[0].name == Some("number_of_cores") && d.pre[1].name == Some("number_of_L2s");
  }

  lemma FollowerIsComponent(es: seq<Elem>, k: nat)
    requires 0 < k <= |es| && es[0].tag == Component
    ensures Components(es[..k]) != []
  {
    assert es[..k][0] == es[0];
  }

  /** Private L2s make it incompatible with several cores, a shared one does not. */
  lemma HeterogeneousTemplate(c: Config)
    requires c.NumCores() > 0
    ensures Shaped(Heterogeneous(), SmallestLayout())
    ensures Compatible(c, Heterogeneous()) <==>
            c.NumCores() <= Reader.SLOTS && if c.privateL2 then c.NumCores() == 1 else c.sharedL2
  {
    hide ReadCounts, Shaped, Components;
    HeterogeneousShaped();
    HeterogeneousCounts("number_of_cores", "number_of_L2s", "homogeneous_cores", "homogeneous_L2s");
    var d := Heterogeneous();
    if c.NumCores() > 1 {
      FollowerIsComponent(d.tail, Lead(c, d));
    } else {
      assert d.tail[..0] == [];
      AllComponents([]);
    }
  }

  /** With the same cores and the same template, the displaced L2s are refused and a shared one is read. */
  lemma DisplacedAlone(c: Config)
    requires 1 < c.NumCores() <= Reader.SLOTS && c.privateL2
    ensures Parse(Run(c, State(Heterogeneous().Children(), 0, 0)).children).Fail?
    ensures var shared := c.(privateL2 := false, sharedL2 := true);
            Parse(Run(shared, State(Heterogeneous().Children(), 0, 0)).children).Ok?
  {
    hide Run, Parse, Shaped, Compatible, Heterogeneous, SmallestLayout;
    var shared := c.(privateL2 := false, sharedL2 := true);
    HeterogeneousTemplate(c);
    HeterogeneousTemplate(shared);
    IncompatibleRejected(c, Heterogeneous(), SmallestLayout());
    CompatibleAccepted(shared, Heterogeneous(), SmallestLayout());
  }
}
