/**
 The positional reader `ParseXML::parse`.

 Components are found by their position among the component children of the system element: a run of
 cores, then of first- and second-level directories, L2s, L3s and NoCs, then four single controllers.
 How long each run is comes from the counts and homogeneity flags among the parameters.
 */
module Reader {
  import opened Wrappers
  import opened Decimal
  import opened Text
  import opened Xml

  /** The size of each component array in `sys`. */
  const SLOTS: nat := 64

  datatype Kind = CoreKind | L1DirKind | L2DirKind | L2Kind | L3Kind | NocKind | McKind | NiuKind | PcieKind | FlashKind

  datatype Error = NotCorrect(kind: Kind) | Overrun

  datatype Outcome<+T> = Ok(value: T) | Fail(error: Error) {
    predicate IsFailure() { Fail? }
    function PropagateFailure<U>(): Outcome<U>
      requires Fail?
    {
      Fail(error)
    }
    function Extract(): T
      requires Ok?
    {
      value
    }
  }

  // ----- The parameters -----

  datatype Counts = Counts(
    cores: int, l1Dirs: int, l2Dirs: int, l2s: int, l3s: int, nocs: int,
    homoCores: int, homoL1Dirs: int, homoL2Dirs: int, homoL2s: int, homoL3s: int, homoNocs: int)

  /** The value of an integer parameter: the last one of that name wins. */
  function IntParam(es: seq<Elem>, name: string, default: int): int {
    if es == [] then default
    else IntParam(es[1..], name,
                  if es[0].tag == Param && es[0].name == Some(name)
                  then Atoi(if es[0].value.Some? then es[0].value.value else "") else default)
  }

  function ReadCounts(es: seq<Elem>): Counts {
    Counts(IntParam(es, "number_of_cores", 1), IntParam(es, "number_of_L1Directories", 1),
           IntParam(es, "number_of_L2Directories", 1), IntParam(es, "number_of_L2s", 1),
           IntParam(es, "number_of_L3s", 1), IntParam(es, "number_of_NoCs", 1),
           IntParam(es, "homogeneous_cores", 1), IntParam(es, "homogeneous_L1Directories", 1),
           IntParam(es, "homogeneous_L2Directories", 1), IntParam(es, "homogeneous_L2s", 1),
           IntParam(es, "homogeneous_L3s", 1), IntParam(es, "homogeneous_NoCs", 1))
  }

  /** Without parameters there is one of everything, and everything is homogeneous. */
  lemma NoParameters()
    ensures ReadCounts([]) == Counts(1, 1, 1, 1, 1, 1, 1, 1, 1, 1, 1, 1)
  {
  }

  // ----- The layout as a function of the counts and the components -----

  /** The order of components is an unsigned 32-bit variable. */
  function U32(x: int): nat { x % 0x1_0000_0000 }

  function CoreCount(p: Counts): (n: nat)
    ensures n > 0
  {
    if p.homoCores == 1 then 1 else U32(p.cores - 1) + 1
  }

  function RunCount(homogeneous: int, number: int): nat {
    if homogeneous == 1 then 1 else U32(number)
  }

  predicate AttrContains(attr: Option<string>, t: string) {
    attr.Some? && Contains(attr.value, t)
  }

  /** The test each run makes on the name or the id of a component. */
  predicate Matches(k: Kind, e: Elem) {
    match k
    case CoreKind => AttrContains(e.name, "core")
    case L1DirKind => AttrContains(e.id, "L1Directory")
    case L2DirKind => AttrContains(e.id, "L2Directory")
    case L2Kind => AttrContains(e.name, "L2")
    case L3Kind => AttrContains(e.name, "L3")
    case NocKind => AttrContains(e.name, "noc")
    case McKind => AttrContains(e.id, "system.mc")
    case NiuKind => AttrContains(e.id, "system.niu")
    case PcieKind => AttrContains(e.id, "system.pcie")
    case FlashKind => AttrContains(e.id, "system.flashc")
  }

  ghost predicate Within(attr: Option<string>, t: string) {
    exists a, b :: attr == Some(a + t + b)
  }

  /** The text each test looks for, anywhere in a component's name or id. */
  lemma TestsMean(e: Elem)
    ensures Matches(CoreKind, e) <==> Within(e.name, "core")
    ensures Matches(L1DirKind, e) <==> Within(e.id, "L1Directory")
    ensures Matches(L2DirKind, e) <==> Within(e.id, "L2Directory")
    ensures Matches(L2Kind, e) <==> Within(e.name, "L2")
    ensures Matches(L3Kind, e) <==> Within(e.name, "L3")
    ensures Matches(NocKind, e) <==> Within(e.name, "noc")
    ensures Matches(McKind, e) <==> Within(e.id, "system.mc")
    ensures Matches(NiuKind, e) <==> Within(e.id, "system.niu")
    ensures Matches(PcieKind, e) <==> Within(e.id, "system.pcie")
    ensures Matches(FlashKind, e) <==> Within(e.id, "system.flashc")
  {
    hide Within, AttrContains;
    HeldMeans(e.name, "core");
    HeldMeans(e.id, "L1Directory");
    HeldMeans(e.id, "L2Directory");
    HeldMeans(e.name, "L2");
    HeldMeans(e.name, "L3");
    HeldMeans(e.name, "noc");
    HeldMeans(e.id, "system.mc");
    HeldMeans(e.id, "system.niu");
    HeldMeans(e.id, "system.pcie");
    HeldMeans(e.id, "system.flashc");
  }

  lemma HeldMeans(attr: Option<string>, t: string)
    ensures AttrContains(attr, t) <==> Within(attr, t)
  {
    hide Contains;
    if attr.Some? {
      ContainsMeans(attr.value, t);
    }
  }

  /** How many of the count components from position w on pass the test before one fails. */
  function RunLength(k: Kind, comps: seq<Elem>, w: nat, count: nat): (m: nat)
    ensures m <= count && (m > 0 ==> w + m <= |comps|)
    ensures forall i :: w <= i < w + m ==> Matches(k, comps[i])
    ensures m < count && w + m < |comps| ==> !Matches(k, comps[w + m])
    decreases count
  {
    if count == 0 || w >= |comps| || !Matches(k, comps[w]) then 0
    else RunLength(k, comps, w + 1, count - 1) + 1
  }

  /** A run: a NoC of the wrong name is no error, it only keeps the position where it is. */
  function RunOutcome(k: Kind, comps: seq<Elem>, w: nat, count: nat): Outcome<seq<Elem>> {
    var m := RunLength(k, comps, w, count);
    if m > SLOTS then Fail(Overrun)
    else if m == count || (k == NocKind && w + m < |comps|) then Ok(if m == 0 then [] else comps[w..w + m])
    else Fail(NotCorrect(k))
  }

  function SingleOutcome(k: Kind, comps: seq<Elem>, w: nat): Outcome<Elem> {
    if w < |comps| && Matches(k, comps[w]) then Ok(comps[w]) else Fail(NotCorrect(k))
  }

  function NextOrder(order: nat): nat { if order > 0 then U32(order + 1) else order }

  datatype Front = Front(cores: seq<Elem>, l1Dirs: seq<Elem>, l2Dirs: seq<Elem>)

  datatype Back = Back(l2s: seq<Elem>, l3s: seq<Elem>, nocs: seq<Elem>)

  datatype Slots = Slots(front: Front, back: Back, mc: Elem, niu: Elem, pcie: Elem, flashc: Elem)

  /** The number of components the runs up to the second-level directories take. */
  function FrontLength(p: Counts): (n: nat)
    ensures n > 0
  {
    CoreCount(p) + RunCount(p.homoL1Dirs, p.l1Dirs) + RunCount(p.homoL2Dirs, p.l2Dirs)
  }

  function WalkFront(p: Counts, comps: seq<Elem>): Outcome<Front> {
    var n0 := CoreCount(p);
    var n1 := n0 + RunCount(p.homoL1Dirs, p.l1Dirs);
    var cores :- RunOutcome(CoreKind, comps, 0, n0);
    var l1Dirs :- RunOutcome(L1DirKind, comps, n0, RunCount(p.homoL1Dirs, p.l1Dirs));
    var l2Dirs :- RunOutcome(L2DirKind, comps, n1, RunCount(p.homoL2Dirs, p.l2Dirs));
    Ok(Front(cores, l1Dirs, l2Dirs))
  }

  function WalkBack(p: Counts, comps: seq<Elem>): Outcome<Back> {
    var n2 := FrontLength(p);
    var n3 := n2 + RunCount(p.homoL2s, p.l2s);
    var n4 := n3 + RunCount(p.homoL3s, p.l3s);
    var l2s :- RunOutcome(L2Kind, comps, n2, RunCount(p.homoL2s, p.l2s));
    var l3s :- RunOutcome(L3Kind, comps, n3, RunCount(p.homoL3s, p.l3s));
    var nocs :- RunOutcome(NocKind, comps, n4, RunCount(p.homoNocs, p.nocs));
    Ok(Back(l2s, l3s, nocs))
  }

  /** The number of components all runs should take. */
  function RunsLength(p: Counts): (n: nat)
    ensures n > 0
  {
    FrontLength(p) + RunCount(p.homoL2s, p.l2s) + RunCount(p.homoL3s, p.l3s) + RunCount(p.homoNocs, p.nocs)
  }

  function WalkSingles(order: nat, comps: seq<Elem>, front: Front, back: Back): Outcome<Slots> {
    var o1 := NextOrder(order);
    var o2 := NextOrder(o1);
    var o3 := NextOrder(o2);
    var o4 := NextOrder(o3);
    var mc :- SingleOutcome(McKind, comps, o1);
    var niu :- SingleOutcome(NiuKind, comps, o2);
    var pcie :- SingleOutcome(PcieKind, comps, o3);
    var flashc :- SingleOutcome(FlashKind, comps, o4);
    Ok(Slots(front, back, mc, niu, pcie, flashc))
  }

  /** What is read from a system element; None if it has no component at all. */
  function Walk(p: Counts, comps: seq<Elem>): Outcome<Option<Slots>> {
    if comps == [] then Ok(None)
    else
      var front :- WalkFront(p, comps);
      var back :- WalkBack(p, comps);
      var slots :- WalkSingles(U32(RunsLength(p) - 1), comps, front, back);
      Ok(Some(slots))
  }

  function Parse(es: seq<Elem>): Outcome<Option<Slots>> {
    Walk(ReadCounts(es), Components(es))
  }

  // ----- The reader itself -----

  ghost predicate Holds(slots: array<Option<Elem>>, es: seq<Elem>)
    reads slots
  {
    |es| <= slots.Length && forall i :: 0 <= i < |es| ==> slots[i] == Some(es[i])
  }

  class XmlParser {
    var core: array<Option<Elem>>
    var l1Directory: array<Option<Elem>>
    var l2Directory: array<Option<Elem>>
    var l2: array<Option<Elem>>
    var l3: array<Option<Elem>>
    var noc: array<Option<Elem>>

    ghost predicate Valid()
      reads this
    {
      && core.Length == l1Directory.Length == l2Directory.Length == SLOTS
      && l2.Length == l3.Length == noc.Length == SLOTS
      && core !in {l1Directory, l2Directory, l2, l3, noc} && l1Directory !in {l2Directory, l2, l3, noc}
      && l2Directory !in {l2, l3, noc} && l2 !in {l3, noc} && l3 != noc
    }

    constructor ()
      ensures Valid() && fresh({core, l1Directory, l2Directory, l2, l3, noc}) && core.Length == 64
    {
      core, l1Directory := new Option<Elem>[SLOTS](_ => None), new Option<Elem>[SLOTS](_ => None);
      l2Directory, l2 := new Option<Elem>[SLOTS](_ => None), new Option<Elem>[SLOTS](_ => None);
      l3, noc := new Option<Elem>[SLOTS](_ => None), new Option<Elem>[SLOTS](_ => None);
    }

    /** One run of the walk, filling slot i with the component it stops at in its i-th round. */
    method ReadRun(k: Kind, comps: seq<Elem>, start: nat, count: nat, slots: array<Option<Elem>>)
      returns (r: Outcome<seq<Elem>>)
      requires slots.Length == SLOTS
      modifies slots
      ensures r == RunOutcome(k, comps, start, count)
      ensures r.Ok? ==> Holds(slots, r.value)
    {
      hide Matches, RunLength, Holds, RunOutcome, RunProgress;
      var w, i := start, 0;
      ghost var filled: seq<Elem> := [];
      StartRun(k, comps, start, count, slots);
      while i < count
        invariant 0 <= i <= count && start <= w && RunProgress(k, comps, start, count, w, i, filled) && Holds(slots, filled)
      {
        if w >= |comps| || (k != NocKind && !Matches(k, comps[w])) {
          StopRun(k, comps, start, count, w, i, filled);
          return Fail(NotCorrect(k));
        }
        if Matches(k, comps[w]) {
          ExtendRun(k, comps, start, count, w, i, filled);
          if i >= SLOTS {
            return Fail(Overrun);
          }
          Fill(slots, i, comps[w], filled);
          filled := filled + [comps[w]];
          w := w + 1;
        } else {
          StallRun(k, comps, start, count, w, i, filled);
        }
        i := i + 1;
      }
      EndRun(k, comps, start, count, w, filled);
      return Ok(if w == start then [] else comps[start..w]);
    }

    method Fill(slots: array<Option<Elem>>, i: nat, e: Elem, ghost filled: seq<Elem>)
      requires i == |filled| < slots.Length && Holds(slots, filled)
      modifies slots
      ensures Holds(slots, filled + [e])
    {
      slots[i] := Some(e);
    }

    /** A run behind the components ordered so far, and the order after it. */
    method ReadGroup(k: Kind, comps: seq<Elem>, order: nat, homogeneous: int, number: int, slots: array<Option<Elem>>)
      returns (r: Outcome<seq<Elem>>, order': nat)
      requires slots.Length == SLOTS
      modifies slots
      ensures r == RunOutcome(k, comps, order + 1, RunCount(homogeneous, number))
      ensures r.Ok? ==> Holds(slots, r.value)
      ensures order' == U32(order + RunCount(homogeneous, number))
    {
      order' := if homogeneous == 1 then U32(order + 1) else U32(order + number);
      Difference(order, if homogeneous == 1 then 1 else number);
      r := ReadRun(k, comps, order + 1, U32(order' - order), slots);
    }

    method ReadSingle(k: Kind, comps: seq<Elem>, order: nat) returns (r: Outcome<Elem>, order': nat)
      ensures order' == NextOrder(order) && r == SingleOutcome(k, comps, order')
    {
      order' := if order > 0 then U32(order + 1) else order;
      if order' < |comps| && Matches(k, comps[order']) {
        r := Ok(comps[order']);
      } else {
        r := Fail(NotCorrect(k));
      }
    }

    method ReadFront(p: Counts, comps: seq<Elem>) returns (r: Outcome<Front>, order: nat)
      requires Valid()
      modifies core, l1Directory, l2Directory
      ensures r == WalkFront(p, comps)
      ensures r.Ok? ==>
                && order == FrontLength(p) - 1 < 3 * SLOTS
                && Holds(core, r.value.cores) && Holds(l1Directory, r.value.l1Dirs)
                && Holds(l2Directory, r.value.l2Dirs)
    {
      hide RunOutcome, U32, Holds;
      order := if p.homoCores == 1 then 0 else U32(p.cores - 1);
      var cores := ReadRun(CoreKind, comps, 0, order + 1, core);
      if cores.Fail? {
        return cores.PropagateFailure(), order;
      }
      ShortRun(CoreKind, comps, 0, order + 1);
      ghost var o := order;
      var l1Dirs, l2Dirs;
      l1Dirs, order := ReadGroup(L1DirKind, comps, order, p.homoL1Dirs, p.l1Dirs, l1Directory);
      if l1Dirs.Fail? {
        return l1Dirs.PropagateFailure(), order;
      }
      ShortRun(L1DirKind, comps, o + 1, RunCount(p.homoL1Dirs, p.l1Dirs));
      Small(o + RunCount(p.homoL1Dirs, p.l1Dirs));
      o := order;
      l2Dirs, order := ReadGroup(L2DirKind, comps, order, p.homoL2Dirs, p.l2Dirs, l2Directory);
      if l2Dirs.Fail? {
        return l2Dirs.PropagateFailure(), order;
      }
      ShortRun(L2DirKind, comps, o + 1, RunCount(p.homoL2Dirs, p.l2Dirs));
      Small(o + RunCount(p.homoL2Dirs, p.l2Dirs));
      return Ok(Front(cores.value, l1Dirs.value, l2Dirs.value)), order;
    }

    method ReadBack(p: Counts, comps: seq<Elem>, before: nat) returns (r: Outcome<Back>, order: nat)
      requires Valid() && before == FrontLength(p) - 1 < 3 * SLOTS
      modifies l2, l3, noc
      ensures r == WalkBack(p, comps)
      ensures r.Ok? ==>
                && order == U32(RunsLength(p) - 1)
                && Holds(l2, r.value.l2s) && Holds(l3, r.value.l3s) && Holds(noc, r.value.nocs)
    {
      hide RunOutcome, U32, Holds;
      var l2s, l3s, nocs;
      l2s, order := ReadGroup(L2Kind, comps, before, p.homoL2s, p.l2s, l2);
      if l2s.Fail? {
        return l2s.PropagateFailure(), order;
      }
      ShortRun(L2Kind, comps, before + 1, RunCount(p.homoL2s, p.l2s));
      Small(before + RunCount(p.homoL2s, p.l2s));
      ghost var o := order;
      l3s, order := ReadGroup(L3Kind, comps, order, p.homoL3s, p.l3s, l3);
      if l3s.Fail? {
        return l3s.PropagateFailure(), order;
      }
      ShortRun(L3Kind, comps, o + 1, RunCount(p.homoL3s, p.l3s));
      Small(o + RunCount(p.homoL3s, p.l3s));
      nocs, order := ReadGroup(NocKind, comps, order, p.homoNocs, p.nocs, noc);
      if nocs.Fail? {
        return nocs.PropagateFailure(), order;
      }
      return Ok(Back(l2s.value, l3s.value, nocs.value)), order;
    }

    /** The parse: the description's layout decides the outcome and what every slot is filled from. */
    method ParseSystem(es: seq<Elem>) returns (r: Outcome<Option<Slots>>)
      requires Valid()
      modifies core, l1Directory, l2Directory, l2, l3, noc
      ensures r == Parse(es)
      ensures r.Ok? && r.value.Some? ==>
                var front, back := r.value.value.front, r.value.value.back;
                && Holds(core, front.cores) && Holds(l1Directory, front.l1Dirs) && Holds(l2Directory, front.l2Dirs)
                && Holds(l2, back.l2s) && Holds(l3, back.l3s) && Holds(noc, back.nocs)
    {
      hide WalkFront, WalkBack, Matches, U32, ReadCounts, Components;
      var comps := Components(es);
      if comps == [] {
        return Ok(None);
      }
      var p := ReadCounts(es);
      var front, order := ReadFront(p, comps);
      if front.Fail? {
        return front.PropagateFailure();
      }
      var back;
      back, order := ReadBack(p, comps, order);
      if back.Fail? {
        return back.PropagateFailure();
      }
      var mc, niu, pcie, flashc;
      mc, order := ReadSingle(McKind, comps, order);
      if mc.Fail? {
        return mc.PropagateFailure();
      }
      niu, order := ReadSingle(NiuKind, comps, order);
      if niu.Fail? {
        return niu.PropagateFailure();
      }
      pcie, order := ReadSingle(PcieKind, comps, order);
      if pcie.Fail? {
        return pcie.PropagateFailure();
      }
      flashc, order := ReadSingle(FlashKind, comps, order);
      if flashc.Fail? {
        return flashc.PropagateFailure();
      }
      return Ok(Some(Slots(front.value, back.value, mc.value, niu.value, pcie.value, flashc.value)));
    }
  }

  /** The state of a run after i rounds: w stays behind once a NoC of the wrong name is met. */
  ghost predicate RunProgress(k: Kind, comps: seq<Elem>, start: nat, count: nat, w: nat, i: nat, filled: seq<Elem>)
    requires i <= count
  {
    && w == start + |filled| && |filled| <= i && |filled| <= SLOTS
    && (|filled| < i ==> k == NocKind && w < |comps| && !Matches(k, comps[w]))
    && RunLength(k, comps, start, count) ==
       |filled| + (if |filled| < i then 0 else RunLength(k, comps, w, count - i))
    && (filled != [] ==> w <= |comps| && filled == comps[start..w])
  }

  lemma StartRun(k: Kind, comps: seq<Elem>, start: nat, count: nat, slots: array<Option<Elem>>)
    ensures RunProgress(k, comps, start, count, start, 0, []) && Holds(slots, [])
  {
  }

  lemma StopRun(k: Kind, comps: seq<Elem>, start: nat, count: nat, w: nat, i: nat, filled: seq<Elem>)
    requires i < count && RunProgress(k, comps, start, count, w, i, filled)
    requires w >= |comps| || (k != NocKind && !Matches(k, comps[w]))
    ensures RunOutcome(k, comps, start, count) == Fail(NotCorrect(k))
  {
    hide Matches;
    assert RunLength(k, comps, w, count - i) == 0;
  }

  lemma ExtendRun(k: Kind, comps: seq<Elem>, start: nat, count: nat, w: nat, i: nat, filled: seq<Elem>)
    requires i < count && RunProgress(k, comps, start, count, w, i, filled)
    requires w < |comps| && Matches(k, comps[w])
    ensures |filled| == i
    ensures i >= SLOTS ==> RunOutcome(k, comps, start, count) == Fail(Overrun)
    ensures i < SLOTS ==> RunProgress(k, comps, start, count, w + 1, i + 1, filled + [comps[w]])
  {
    hide Matches;
    assert RunLength(k, comps, w, count - i) == 1 + RunLength(k, comps, w + 1, count - i - 1);
    if i < SLOTS {
      hide RunLength;
      assert comps[start..w + 1] == filled + [comps[w]];
    }
  }

  lemma StallRun(k: Kind, comps: seq<Elem>, start: nat, count: nat, w: nat, i: nat, filled: seq<Elem>)
    requires i < count && RunProgress(k, comps, start, count, w, i, filled)
    requires w < |comps| && k == NocKind && !Matches(k, comps[w])
    ensures RunProgress(k, comps, start, count, w, i + 1, filled)
  {
    hide Matches;
    assert RunLength(k, comps, w, count - i) == 0;
  }

  lemma EndRun(k: Kind, comps: seq<Elem>, start: nat, count: nat, w: nat, filled: seq<Elem>)
    requires RunProgress(k, comps, start, count, w, count, filled)
    ensures w > start ==> w <= |comps|
    ensures RunOutcome(k, comps, start, count) == Ok(if w == start then [] else comps[start..w])
    ensures RunOutcome(k, comps, start, count) == Ok(filled)
  {
    hide Matches;
  }

  lemma Small(x: nat)
    ensures x < 0x1_0000_0000 ==> U32(x) == x
  {
  }

  /** A run that is read to its end is no longer than the array it fills. */
  lemma ShortRun(k: Kind, comps: seq<Elem>, w: nat, count: nat)
    requires k != NocKind && RunOutcome(k, comps, w, count).Ok?
    ensures count <= SLOTS && |RunOutcome(k, comps, w, count).value| == count
    ensures count > 0 ==> w + count <= |comps| && RunOutcome(k, comps, w, count).value == comps[w..w + count]
    ensures forall i :: w <= i < w + count ==> Matches(k, comps[i])
  {
  }

  /** A run of NoCs that meets another component ends there; where nothing is left it fails like any other. */
  lemma NocStalls(comps: seq<Elem>, w: nat, count: nat)
    requires count > 0
    ensures w < |comps| && !Matches(NocKind, comps[w]) ==> RunOutcome(NocKind, comps, w, count) == Ok([])
    ensures w >= |comps| ==> RunOutcome(NocKind, comps, w, count) == Fail(NotCorrect(NocKind))
  {
    hide Matches;
  }

  lemma Difference(order: nat, number: int)
    ensures U32(U32(order + number) - order) == U32(number)
    ensures U32(order + number) == U32(order + U32(number))
  {
  }
}
