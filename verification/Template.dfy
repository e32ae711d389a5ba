/**
 The template expander `prepareTemplate`.

 It walks the children of the system element by index while inserting into and removing from that same
 list; the insertion position is a counter of its own, which runs ahead of the index once the core
 template has been expanded.
 */
module Template {
  import opened Wrappers
  import opened Decimal
  import opened Text
  import opened Xml

  /** What the script takes from config.json: per cpu, whether its isa is x86, and where the L2 lives. */
  datatype Config = Config(cpuIsX86: seq<bool>, privateL2: bool, sharedL2: bool) {
    function NumCores(): nat { |cpuIsX86| }
    function NumL2(): nat { if privateL2 then NumCores() else if sharedL2 then 1 else 0 }
  }

  // ----- Rewriting one child -----

  /** The total over all cpus of an expression written for one cpu, its first i summands. */
  function SumOverCpus(v: string, i: nat): string
    requires i > 0
  {
    if i == 1 then "(" + Replace(v, "cpu.", "cpu0.") + ")"
    else SumOverCpus(v, i - 1) + " + (" + Replace(v, "cpu.", "cpu" + ToString(i - 1) + ".") + ")"
  }

  predicate IsCpuTotal(v: string) {
    Contains(v, "cpu.") && BeforeDot(v) == "stats"
  }

  function Refresh(c: Config, e: Elem): Elem
    requires c.NumCores() > 0
  {
    var e := if e.name == Some("number_of_cores") then e.(value := Some(ToString(c.NumCores()))) else e;
    var e := if e.name == Some("number_of_L2s") then e.(value := Some(ToString(c.NumL2()))) else e;
    var e := if e.name == Some("Private_L2") then e.(value := Some(if c.sharedL2 then "0" else "1")) else e;
    if e.value.Some? && IsCpuTotal(e.value.value)
    then e.(value := Some(SumOverCpus(e.value.value, c.NumCores())))
    else e
  }

  function RefreshAll(c: Config, es: seq<Elem>): (rs: seq<Elem>)
    requires c.NumCores() > 0
    ensures |rs| == |es|
  {
    seq(|es|, i requires 0 <= i < |es| => Refresh(c, es[i]))
  }

  /** A statistic or a configuration reference, made to name cpu k. */
  function ForCpu(value: Option<string>, k: nat): Option<string> {
    if value == None then None
    else
      var v := if Contains(value.value, "cpu.") && Contains(BeforeDot(value.value), "stats")
               then Replace(value.value, "cpu.", "cpu" + ToString(k) + ".") else value.value;
      Some(if Contains(v, "cpu.") && Contains(BeforeDot(v), "config")
           then Replace(v, "cpu.", "cpu." + ToString(k) + ".") else v)
  }

  function CoreKid(c: Config, kid: Elem, k: nat): Elem
    requires k < c.NumCores()
  {
    var value := if kid.name == Some("x86") then Some(if c.cpuIsX86[k] then "1" else "0") else kid.value;
    var id := if kid.id.Some? && Contains(kid.id.value, "core")
              then Some(Replace(kid.id.value, "core", "core" + ToString(k))) else kid.id;
    Elem(kid.tag, kid.name, id, ForCpu(value, k),
         seq(|kid.kids|, i requires 0 <= i < |kid.kids| => kid.kids[i].(value := ForCpu(kid.kids[i].value, k))))
  }

  function CoreCopy(c: Config, core: Elem, k: nat): Elem
    requires k < c.NumCores()
  {
    Elem(core.tag, Some("core" + ToString(k)), Some("system.core" + ToString(k)), core.value,
         seq(|core.kids|, i requires 0 <= i < |core.kids| => CoreKid(c, core.kids[i], k)))
  }

  function L2Copy(l2: Elem, k: nat): Elem {
    Elem(l2.tag, Some("L2" + ToString(k)), Some("system.L2" + ToString(k)), l2.value,
         seq(|l2.kids|, i requires 0 <= i < |l2.kids| => l2.kids[i].(value := ForCpu(l2.kids[i].value, k))))
  }

  /** The shared L2 is only renamed: the script computes new values for its children but drops them. */
  function SharedL2(l2: Elem): Elem {
    l2.(name := Some("L20"), id := Some("system.L20"))
  }

  function CoreCopies(c: Config, core: Elem): (es: seq<Elem>)
    ensures |es| == c.NumCores()
  {
    seq(c.NumCores(), k requires 0 <= k < c.NumCores() => CoreCopy(c, core, k))
  }

  function L2Copies(c: Config, l2: Elem): (es: seq<Elem>)
    ensures |es| == c.NumL2()
  {
    seq(c.NumL2(), k requires 0 <= k => L2Copy(l2, k))
  }

  // ----- The walk as a transition on (children, index, counter) -----

  datatype State = State(children: seq<Elem>, index: nat, counter: nat)

  /** `list.insert` clamps the position to the end of the list. */
  function InsertAt(list: seq<Elem>, pos: nat, es: seq<Elem>): (r: seq<Elem>)
    ensures |r| == |list| + |es|
  {
    var p := if pos <= |list| then pos else |list|;
    list[..p] + es + list[p..]
  }

  function RemoveAt(list: seq<Elem>, i: nat): (r: seq<Elem>)
    requires i < |list|
    ensures |r| == |list| - 1
  {
    list[..i] + list[i + 1..]
  }

  predicate IsTemplate(e: Elem) {
    e.name == Some("core") || e.name == Some("L2")
  }

  /** The rest of a step, once the child at the index has been rewritten to e. */
  function Act(c: Config, s: State, e: Elem): State
    requires c.NumCores() > 0 && s.index < |s.children|
  {
    var list := s.children[s.index := e];
    var counter := s.counter + 1;
    if e.name == Some("core") then
      State(RemoveAt(InsertAt(list, counter, CoreCopies(c, e)), s.index), s.index + 1, counter + c.NumCores() - 1)
    else if e.name == Some("L2") && c.privateL2 then
      State(RemoveAt(InsertAt(list, counter, L2Copies(c, e)), s.index), s.index + 1, counter + c.NumL2())
    else if e.name == Some("L2") then
      State(list[s.index := SharedL2(e)], s.index + 1, counter)
    else
      State(list, s.index + 1, counter)
  }

  function Step(c: Config, s: State): State
    requires c.NumCores() > 0 && s.index < |s.children|
  {
    Act(c, s, Refresh(c, s.children[s.index]))
  }

  ghost function Templates(es: seq<Elem>): nat {
    if es == [] then 0 else (if IsTemplate(es[0]) then 1 else 0) + Templates(es[1..])
  }

  ghost predicate Progress(s: State, t: State)
    requires s.index <= |s.children|
  {
    && t.index <= t.counter && t.index <= |t.children|
    && var left, left' := Templates(s.children[s.index..]), Templates(t.children[t.index..]);
       left' < left || (left' == left && |t.children| - t.index < |s.children| - s.index)
  }

  /** Every step spends a template or, failing that, an unvisited child. */
  lemma StepProgress(c: Config, s: State)
    requires c.NumCores() > 0 && s.index < |s.children| && s.index <= s.counter
    ensures Progress(s, Step(c, s))
  {
    ActProgress(c, s, Refresh(c, s.children[s.index]));
  }

  lemma ActProgress(c: Config, s: State, e: Elem)
    requires c.NumCores() > 0 && s.index < |s.children| && s.index <= s.counter
    requires e.name == s.children[s.index].name
    ensures Progress(s, Act(c, s, e))
  {
    hide InsertAt, RemoveAt;
    var i := s.index;
    var tail := s.children[i + 1..];
    var list := s.children[i := e];
    assert list[i + 1..] == tail;
    assert s.children[i..][1..] == tail;
    if e.name == Some("core") {
      var copies := CoreCopies(c, e);
      forall k | 0 <= k < |copies| ensures !IsTemplate(copies[k]) { CopyNames(k); }
      NoTemplates(copies);
      ExpansionProgress(list, i, s.counter + 1, copies);
    } else if e.name == Some("L2") && c.privateL2 {
      var copies := L2Copies(c, e);
      forall k | 0 <= k < |copies| ensures !IsTemplate(copies[k]) { CopyNames(k); }
      NoTemplates(copies);
      ExpansionProgress(list, i, s.counter + 1, copies);
    } else {
      assert Act(c, s, e).children[i + 1..] == tail;
    }
  }

  lemma CopyNames(k: nat)
    ensures "core" + ToString(k) != "core" && "core" + ToString(k) != "L2"
    ensures "L2" + ToString(k) != "core" && "L2" + ToString(k) != "L2"
  {
    assert |"core" + ToString(k)| > 4 && |"L2" + ToString(k)| > 2;
    assert ("core" + ToString(k))[0] == 'c' && ("L2" + ToString(k))[0] == 'L';
  }

  lemma {:induction false} NoTemplates(es: seq<Elem>)
    requires forall k :: 0 <= k < |es| ==> !IsTemplate(es[k])
    ensures Templates(es) == 0
  {
    if es != [] {
      NoTemplates(es[1..]);
    }
  }

  lemma {:induction false} TemplatesConcat(a: seq<Elem>, b: seq<Elem>)
    ensures Templates(a + b) == Templates(a) + Templates(b)
  {
    if a == [] {
      assert a + b == b;
    } else {
      assert (a + b)[1..] == a[1..] + b;
      TemplatesConcat(a[1..], b);
    }
  }

  /** What lies behind the index after copies went in behind position i and the template at i went out. */
  lemma ExpansionProgress(list: seq<Elem>, i: nat, pos: nat, copies: seq<Elem>)
    requires i < |list| && i < pos && copies != []
    ensures var r := RemoveAt(InsertAt(list, pos, copies), i);
            Templates(r[i + 1..]) <= Templates(list[i + 1..]) + Templates(copies)
  {
    var p := if pos <= |list| then pos else |list|;
    var r := RemoveAt(InsertAt(list, pos, copies), i);
    var mid, rest := list[i + 1..p], list[p..];
    assert r[i..] == mid + copies + rest;
    assert list[i + 1..] == mid + rest;
    assert r[i..] == [r[i]] + r[i + 1..];
    TemplatesConcat([r[i]], r[i + 1..]);
    TemplatesConcat(mid + copies, rest);
    TemplatesConcat(mid, copies);
    TemplatesConcat(mid, rest);
  }

  function Run(c: Config, s: State): State
    requires c.NumCores() > 0 && s.index <= s.counter
    decreases Templates(s.children[if s.index <= |s.children| then s.index else |s.children|..]), |s.children| - s.index
  {
    if s.index >= |s.children| then s
    else
      StepProgress(c, s);
      Run(c, Step(c, s))
  }

  /** The script: the children are updated in place while the index runs over them. */
  class Expander {
    const config: Config
    var children: seq<Elem>
    var elemCounter: nat

    constructor (config: Config, children: seq<Elem>)
      ensures this.config == config && this.children == children && elemCounter == 0
    {
      this.config, this.children, elemCounter := config, children, 0;
    }

    /** Inserts the copies one by one at the counter, which moves along. */
    method InsertCopies(copies: seq<Elem>)
      modifies this
      ensures children == InsertAt(old(children), old(elemCounter), copies)
      ensures elemCounter == old(elemCounter) + |copies|
    {
      var k := 0;
      while k < |copies|
        invariant 0 <= k <= |copies| && elemCounter == old(elemCounter) + k
        invariant children == InsertAt(old(children), old(elemCounter), copies[..k])
      {
        InsertNext(old(children), old(elemCounter), copies, k);
        children := InsertAt(children, elemCounter, [copies[k]]);
        elemCounter := elemCounter + 1;
        k := k + 1;
      }
      assert copies[..k] == copies;
    }

    /** One pass of the loop body.  Insertions lie behind the index, so the child is still at it when removed. */
    method VisitChild(index: nat)
      requires config.NumCores() > 0 && index < |children| && index <= elemCounter
      modifies this
      ensures State(children, index + 1, elemCounter) == Step(config, State(old(children), index, old(elemCounter)))
    {
      hide Act, Refresh;
      elemCounter := elemCounter + 1;
      var child := Refresh(config, children[index]);
      ActUpdated(config, State(children, index, elemCounter - 1), child);
      children := children[index := child];
      ActOn(index, child);
    }

    method ActOn(index: nat, child: Elem)
      requires config.NumCores() > 0 && index < |children| && index < elemCounter && children[index] == child
      modifies this
      ensures State(children, index + 1, elemCounter) ==
              Act(config, State(old(children), index, old(elemCounter) - 1), child)
    {
      ghost var same := children[index := child];
      assert same == children;
      if child.name == Some("core") {
        InsertCopies(CoreCopies(config, child));
        assert children[index] == child;
        children := RemoveAt(children, index);
        elemCounter := elemCounter - 1;
      } else if child.name == Some("L2") {
        if config.privateL2 {
          InsertCopies(L2Copies(config, child));
          assert children[index] == child;
          children := RemoveAt(children, index);
        } else {
          children := children[index := SharedL2(child)];
        }
      }
    }

    method PrepareTemplate()
      requires config.NumCores() > 0 && elemCounter == 0
      modifies this
      ensures children == Run(config, State(old(children), 0, 0)).children
    {
      var index := 0;
      while index < |children|
        invariant 0 <= index <= elemCounter
        invariant Run(config, State(children, index, elemCounter)) == Run(config, State(old(children), 0, 0))
        decreases Templates(children[if index <= |children| then index else |children|..]), |children| - index
      {
        StepProgress(config, State(children, index, elemCounter));
        VisitChild(index);
        index := index + 1;
      }
    }
  }

  lemma ActUpdated(c: Config, s: State, e: Elem)
    requires c.NumCores() > 0 && s.index < |s.children|
    ensures Act(c, s.(children := s.children[s.index := e]), e) == Act(c, s, e)
  {
    hide CoreCopies, L2Copies, InsertAt, RemoveAt, SharedL2;
    assert s.children[s.index := e][s.index := e] == s.children[s.index := e];
  }

  lemma InsertNext(list: seq<Elem>, pos: nat, copies: seq<Elem>, k: nat)
    requires k < |copies|
    ensures InsertAt(InsertAt(list, pos, copies[..k]), pos + k, [copies[k]]) == InsertAt(list, pos, copies[..k + 1])
  {
    assert copies[..k + 1] == copies[..k] + [copies[k]];
    var p := if pos <= |list| then pos else |list|;
    var r := InsertAt(list, pos, copies[..k]);
    assert r[..p + k] == list[..p] + copies[..k] && r[p + k..] == list[p..];
  }

  // ----- Where the copies land -----

  ghost predicate Plain(es: seq<Elem>) {
    forall i :: 0 <= i < |es| ==> !IsTemplate(es[i])
  }

  /** The child that slides into a removed template's place is passed over; the rest is rewritten. */
  function PassFirst(c: Config, es: seq<Elem>): (rs: seq<Elem>)
    requires c.NumCores() > 0
    ensures |rs| == |es|
  {
    if es == [] then [] else [es[0]] + RefreshAll(c, es[1..])
  }

  lemma PlainStep(c: Config, done: seq<Elem>, e: Elem, rest: seq<Elem>, counter: nat)
    requires c.NumCores() > 0 && |done| <= counter && !IsTemplate(e)
    ensures Run(c, State(done + [e] + rest, |done|, counter)) ==
            Run(c, State(done + [Refresh(c, e)] + rest, |done| + 1, counter + 1))
  {
    var s := State(done + [e] + rest, |done|, counter);
    var r := Refresh(c, e);
    assert s.children[|done|] == e;
    assert s.children[|done| := r] == done + [r] + rest;
    assert Act(c, s, r) == State(done + [r] + rest, |done| + 1, counter + 1);
  }

  lemma {:induction false} RunPlain(c: Config, done: seq<Elem>, plain: seq<Elem>, rest: seq<Elem>, counter: nat)
    requires c.NumCores() > 0 && |done| <= counter && Plain(plain)
    ensures Run(c, State(done + plain + rest, |done|, counter)) ==
            Run(c, State(done + RefreshAll(c, plain) + rest, |done| + |plain|, counter + |plain|))
    decreases |plain|
  {
    hide Run, Refresh;
    if plain == [] {
      assert done + plain + rest == done + RefreshAll(c, plain) + rest;
    } else {
      PlainStep(c, done, plain[0], plain[1..] + rest, counter);
      var done' := done + [Refresh(c, plain[0])];
      RunPlain(c, done', plain[1..], rest, counter + 1);
      assert done + [plain[0]] + (plain[1..] + rest) == done + plain + rest;
      assert done' + (plain[1..] + rest) == done' + plain[1..] + rest;
      RefreshSplit(c, plain);
      assert done' + RefreshAll(c, plain[1..]) + rest == done + RefreshAll(c, plain) + rest;
    }
  }

  lemma RefreshSplit(c: Config, es: seq<Elem>)
    requires c.NumCores() > 0 && es != []
    ensures RefreshAll(c, es) == [Refresh(c, es[0])] + RefreshAll(c, es[1..])
  {
  }

  /**
   The position law.  With the counter leading the index by `lead`, the copies of a template land behind
   the next min(lead, remaining) siblings; so they replace it in place exactly when one of the two is 0.
   Expanding the core raises the lead by n - 1, expanding a private L2 raises it by n.
   */
  lemma ExpansionLands(c: Config, done: seq<Elem>, e: Elem, rest: seq<Elem>, counter: nat)
    requires c.NumCores() > 0 && |done| <= counter
    requires e.name == Some("core") || (e.name == Some("L2") && c.privateL2)
    ensures var t := Step(c, State(done + [e] + rest, |done|, counter));
            var lead := counter - |done|;
            var d := if lead <= |rest| then lead else |rest|;
            var copies := if e.name == Some("core") then CoreCopies(c, Refresh(c, e)) else L2Copies(c, Refresh(c, e));
            && t.children == done + (rest[..d] + copies + rest[d..])
            && t.index == |done| + 1
            && t.counter - t.index == lead + c.NumCores() - (if e.name == Some("core") then 1 else 0)
  {
    hide Refresh, CoreCopies, L2Copies, InsertAt, RemoveAt;
    RefreshKeeps(c, e);
    var r := Refresh(c, e);
    var copies := if e.name == Some("core") then CoreCopies(c, r) else L2Copies(c, r);
    Replaced(done, e, rest, r);
    Landing(done, r, rest, counter, copies);
  }

  lemma Replaced(done: seq<Elem>, e: Elem, rest: seq<Elem>, r: Elem)
    ensures var list := done + [e] + rest;
            list[|done|] == e && list[|done| := r] == done + [r] + rest
  {
  }

  lemma Landing(done: seq<Elem>, r: Elem, rest: seq<Elem>, counter: nat, copies: seq<Elem>)
    requires |done| <= counter
    ensures var d := if counter - |done| <= |rest| then counter - |done| else |rest|;
            RemoveAt(InsertAt(done + [r] + rest, counter + 1, copies), |done|) ==
            done + (rest[..d] + copies + rest[d..])
  {
    var d := if counter - |done| <= |rest| then counter - |done| else |rest|;
    var list := done + [r] + rest;
    var p := |done| + 1 + d;
    assert list[..p] == done + [r] + rest[..d] && list[p..] == rest[d..];
    assert InsertAt(list, counter + 1, copies) == done + [r] + (rest[..d] + copies + rest[d..]);
  }

  /** The core template in front of an unmoved counter: n copies in its place, and a lead of n - 1. */
  lemma CoreInPlace(c: Config, done: seq<Elem>, core: Elem, rest: seq<Elem>)
    requires c.NumCores() > 0 && core.name == Some("core")
    ensures Run(c, State(done + [core] + rest, |done|, |done|)) ==
            Run(c, State(done + PassFirst(c, CoreCopies(c, Refresh(c, core))) + rest,
                         |done| + c.NumCores(), |done| + 2 * c.NumCores() - 1))
  {
    hide Run, Refresh, Act, CoreCopy;
    var s := State(done + [core] + rest, |done|, |done|);
    var copies := CoreCopies(c, Refresh(c, core));
    ExpansionLands(c, done, core, rest, |done|);
    assert rest[..0] + copies + rest[0..] == copies + rest;
    RunStep(c, s);
    CopiesPlain(c, Refresh(c, core));
    var done' := done + [copies[0]];
    assert done + (copies + rest) == done' + copies[1..] + rest;
    RunPlain(c, done', copies[1..], rest, |done| + c.NumCores());
    assert done' + RefreshAll(c, copies[1..]) + rest == done + PassFirst(c, copies) + rest;
  }

  /** The end of a walk whose last template has just been dealt with. */
  lemma RunOut(c: Config, done: seq<Elem>, rest: seq<Elem>, counter: nat)
    requires c.NumCores() > 0 && |done| < counter && Plain(rest)
    ensures Run(c, State(done + rest, |done| + 1, counter)).children == done + PassFirst(c, rest)
  {
    hide Refresh, Step;
    if rest == [] {
      assert done + rest == done + PassFirst(c, rest);
    } else {
      var done' := done + [rest[0]];
      assert done' + rest[1..] + [] == done + rest;
      RunPlain(c, done', rest[1..], [], counter);
      assert done' + RefreshAll(c, rest[1..]) + [] == done + PassFirst(c, rest);
    }
  }

  /** The children of a template document: one core, later one L2, nothing else to expand. */
  datatype Doc = Doc(pre: seq<Elem>, core: Elem, mid: seq<Elem>, l2: Elem, tail: seq<Elem>) {
    ghost predicate Valid() {
      Plain(pre) && Plain(mid) && Plain(tail) && core.name == Some("core") && l2.name == Some("L2")
    }
    function Children(): seq<Elem> { pre + [core] + mid + [l2] + tail }
  }

  function ExpandedFront(c: Config, d: Doc): seq<Elem>
    requires c.NumCores() > 0
  {
    RefreshAll(c, d.pre) + PassFirst(c, CoreCopies(c, Refresh(c, d.core))) + RefreshAll(c, d.mid)
  }

  /** What stands where the L2 template and its following siblings stood, before the walk goes on. */
  function ExpandedL2(c: Config, d: Doc): seq<Elem>
    requires c.NumCores() > 0
  {
    if c.privateL2 then
      var lead := c.NumCores() - 1;
      var k := if lead <= |d.tail| then lead else |d.tail|;
      d.tail[..k] + L2Copies(c, Refresh(c, d.l2)) + d.tail[k..]
    else [SharedL2(Refresh(c, d.l2))] + d.tail
  }

  /** The whole expansion of a document, in closed form. */
  lemma ExpansionLaw(c: Config, d: Doc)
    requires c.NumCores() > 0 && d.Valid()
    ensures Run(c, State(d.Children(), 0, 0)).children == ExpandedFront(c, d) + PassFirst(c, ExpandedL2(c, d))
  {
    hide Run, Refresh, Act, CoreCopy, L2Copy, ExpandedL2;
    var n := c.NumCores();
    var back := d.mid + [d.l2] + d.tail;
    var pre' := RefreshAll(c, d.pre);
    var cores := PassFirst(c, CoreCopies(c, Refresh(c, d.core)));
    var done := pre' + cores;
    var front := ExpandedFront(c, d);
    assert d.Children() == [] + d.pre + ([d.core] + back);
    RunPlain(c, [], d.pre, [d.core] + back, 0);
    assert [] + pre' + ([d.core] + back) == pre' + [d.core] + back;
    CoreInPlace(c, pre', d.core, back);
    assert pre' + cores + back == done + d.mid + ([d.l2] + d.tail);
    RunPlain(c, done, d.mid, [d.l2] + d.tail, |pre'| + 2 * n - 1);
    assert done + RefreshAll(c, d.mid) + ([d.l2] + d.tail) == front + [d.l2] + d.tail;
    L2Expansion(c, d, front, |front| + n - 1);
  }

  lemma L2Expansion(c: Config, d: Doc, front: seq<Elem>, counter: nat)
    requires c.NumCores() > 0 && d.Valid() && counter == |front| + c.NumCores() - 1
    ensures Run(c, State(front + [d.l2] + d.tail, |front|, counter)).children == front + PassFirst(c, ExpandedL2(c, d))
  {
    hide Run, Step, ExpandedL2, Plain;
    var s := State(front + [d.l2] + d.tail, |front|, counter);
    RunStep(c, s);
    L2Step(c, d, front, counter);
    RunOut(c, front, ExpandedL2(c, d), Step(c, s).counter);
  }

  lemma L2Step(c: Config, d: Doc, front: seq<Elem>, counter: nat)
    requires c.NumCores() > 0 && d.Valid() && counter == |front| + c.NumCores() - 1
    ensures var t, rest := Step(c, State(front + [d.l2] + d.tail, |front|, counter)), ExpandedL2(c, d);
            t == State(front + rest, |front| + 1, t.counter) && |front| < t.counter && Plain(rest)
  {
    hide Refresh, CoreCopies, L2Copies, InsertAt, RemoveAt;
    var s := State(front + [d.l2] + d.tail, |front|, counter);
    var e := Refresh(c, d.l2);
    RefreshKeeps(c, d.l2);
    if c.privateL2 {
      ExpansionLands(c, front, d.l2, d.tail, counter);
      CopiesPlain(c, e);
    } else {
      Replaced(front, d.l2, d.tail, e);
      Replaced(front, e, d.tail, SharedL2(e));
      assert front + [SharedL2(e)] + d.tail == front + ([SharedL2(e)] + d.tail);
    }
  }

  lemma RunStep(c: Config, s: State)
    requires c.NumCores() > 0 && s.index <= s.counter && s.index < |s.children|
    ensures Step(c, s).index <= Step(c, s).counter
    ensures Run(c, s) == Run(c, Step(c, s))
  {
    StepProgress(c, s);
  }

  lemma RefreshKeeps(c: Config, e: Elem)
    requires c.NumCores() > 0
    ensures var r := Refresh(c, e); r.tag == e.tag && r.name == e.name && r.id == e.id && r.kids == e.kids
  {
  }

  lemma CopiesPlain(c: Config, e: Elem)
    ensures Plain(CoreCopies(c, e)) && Plain(L2Copies(c, e))
  {
    forall k | 0 <= k < c.NumCores() ensures !IsTemplate(CoreCopies(c, e)[k]) { CopyNames(k); }
    forall k | 0 <= k < c.NumL2() ensures !IsTemplate(L2Copies(c, e)[k]) { CopyNames(k); }
  }
}
