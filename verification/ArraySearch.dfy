/**
 The search `ArrayST::optimize_array` runs over the array solver, and who owns the solver's results.

 A solver result is a plain struct holding a pointer to a heap block.  Copying the struct copies the
 pointer, `cleanup` deletes the block and nulls the pointer of one copy only.  The class below keeps the
 set of live blocks and a `fault` flag that is raised whenever a block that is not live is read or
 deleted, so ownership is a property to prove and not a precondition.
 */
module ArraySearch {
  import opened Wrappers

  const BIGNUM: real := 1000000000000000000000000000000.0
  const TOLERANCE: real := 0.0000000001
  const AREA_EFFICIENCY_THRESHOLD: real := 20.0
  const OPTIMIZATION_END := 20
  const MAX_ROUNDS: nat := 8

  /** What the solver reports about one solution. */
  datatype Figures = Figures(cycleTime: real, accessTime: real, readEnergy: real, areaEfficiency: real)

  /** The solver settings the search overwrites. */
  datatype Tuning = Tuning(
    ed: int,
    delayWt: int, cycleTimeWt: int, areaWt: int, dynamicPowerWt: int, leakagePowerWt: int,
    delayDev: int, cycleTimeDev: int, areaDev: int, dynamicPowerDev: int, leakagePowerDev: int)

  /** A solver result: the pointer to its block (None is null) and its figures. */
  datatype Org = Org(block: Option<nat>, figures: Figures)

  datatype Limits = Limits(assoc: nat, throughput: real, latency: real)

  datatype Warning = ThroughputWarning | LatencyWarning

  predicate MeetsThroughput(l: Limits, f: Figures) {
    f.cycleTime - l.throughput <= TOLERANCE
  }

  predicate MeetsLatency(l: Limits, f: Figures) {
    f.accessTime - l.latency <= TOLERANCE
  }

  predicate MeetsBoth(l: Limits, f: Figures) {
    MeetsThroughput(l, f) && MeetsLatency(l, f)
  }

  /** Solutions kept in the candidate list: those in time, and cams whose area efficiency got too low. */
  predicate Saved(l: Limits, f: Figures) {
    MeetsBoth(l, f) || (f.areaEfficiency < AREA_EFFICIENCY_THRESHOLD && l.assoc == 0)
  }

  /** Rounds that may clear an overflow flag; a cam saved only for its area efficiency may not. */
  predicate Counts(l: Limits, f: Figures) {
    MeetsBoth(l, f) || !Saved(l, f)
  }

  /** The settings of the tightening loop. */
  function Tightened(cycleTimeDev: int): Tuning {
    Tuning(0, 100, 1000, 10, 10, 10, 1000000, cycleTimeDev, 1000000, 1000000, 1000000)
  }

  /** The settings of the first k rounds. */
  function Schedule(k: nat): (ts: seq<Tuning>)
    ensures |ts| == k
  {
    seq(k, j => Tuning(0, 100, 1000, 10, 10, 10, 1000000, 100 - 10 * j, 1000000, 1000000, 1000000))
  }

  lemma NextScheduled(first: Tuning, k: nat)
    ensures [first] + Schedule(k) + [Tightened(100 - 10 * k)] == [first] + Schedule(k + 1)
  {
    assert Schedule(k + 1) == Schedule(k) + [Tightened(100 - 10 * k)];
  }

  /** The figures of the eight possible rounds, for the deviations 100, 90, ..., 30. */
  function Rounds(solve: Tuning -> Figures): (fs: seq<Figures>)
    ensures |fs| == MAX_ROUNDS
  {
    seq(MAX_ROUNDS, k => solve(Tightened(100 - 10 * k)))
  }

  // ----- What the loop and the selection compute, as functions of the eight rounds -----

  predicate ThroughputCleared(l: Limits, fs: seq<Figures>, k: nat)
    requires k <= |fs|
  {
    exists j :: 0 <= j < k && MeetsThroughput(l, fs[j]) && Counts(l, fs[j])
  }

  predicate LatencyCleared(l: Limits, fs: seq<Figures>, k: nat)
    requires k <= |fs|
  {
    exists j :: 0 <= j < k && MeetsLatency(l, fs[j]) && Counts(l, fs[j])
  }

  /** The number of rounds run, counted on from k. */
  function StopFrom(l: Limits, fs: seq<Figures>, k: nat): (n: nat)
    requires k <= |fs|
    ensures k <= n <= |fs|
    ensures n < |fs| ==> ThroughputCleared(l, fs, n) && LatencyCleared(l, fs, n)
    ensures forall m :: k <= m < n ==> !(ThroughputCleared(l, fs, m) && LatencyCleared(l, fs, m))
    decreases |fs| - k
  {
    if k == |fs| || (ThroughputCleared(l, fs, k) && LatencyCleared(l, fs, k)) then k
    else StopFrom(l, fs, k + 1)
  }

  function Stop(l: Limits, fs: seq<Figures>): (n: nat)
    requires |fs| == MAX_ROUNDS
    ensures 1 <= n <= MAX_ROUNDS
  {
    StopFrom(l, fs, 0)
  }

  /** The block of round j; block 0 belongs to the first, untightened, solution. */
  function RoundOrg(fs: seq<Figures>, j: nat): Org
    requires j < |fs|
  {
    Org(Some(j + 1), fs[j])
  }

  /** The candidate list after k rounds. */
  function Candidates(l: Limits, fs: seq<Figures>, k: nat): seq<Org>
    requires k <= |fs|
  {
    if k == 0 then []
    else if Saved(l, fs[k - 1]) then Candidates(l, fs, k - 1) + [RoundOrg(fs, k - 1)]
    else Candidates(l, fs, k - 1)
  }

  /** The blocks of the candidates after k rounds. */
  ghost function SavedBlocks(l: Limits, fs: seq<Figures>, k: nat): (blocks: set<nat>)
    requires k <= |fs|
    ensures forall b :: b in blocks <==> 1 <= b <= k && Saved(l, fs[b - 1])
  {
    if k == 0 then {}
    else if Saved(l, fs[k - 1]) then SavedBlocks(l, fs, k - 1) + {k}
    else SavedBlocks(l, fs, k - 1)
  }

  /** The candidate the selection ends with: a later one replaces it only when strictly below it. */
  function Best(cs: seq<Org>): Option<Org> {
    if cs == [] then None
    else
      var b := Best(cs[..|cs| - 1]);
      var c := cs[|cs| - 1];
      if (if b.Some? then b.value.figures.readEnergy else BIGNUM) > c.figures.readEnergy then Some(c) else b
  }

  /** The blocks of the candidates the selection deletes. */
  ghost function Losers(cs: seq<Org>): set<nat> {
    if cs == [] then {}
    else
      var c := cs[|cs| - 1];
      Losers(cs[..|cs| - 1]) + (if Best(cs) == Best(cs[..|cs| - 1]) && c.block.Some? then {c.block.value} else {})
  }

  /** Round j beats BIGNUM and every earlier saved round. */
  predicate PrefixMinimum(l: Limits, fs: seq<Figures>, j: nat)
    requires j < |fs|
  {
    && Saved(l, fs[j])
    && fs[j].readEnergy < BIGNUM
    && forall i :: 0 <= i < j && Saved(l, fs[i]) ==> fs[j].readEnergy < fs[i].readEnergy
  }

  /** Round j is the first saved round of minimal read energy among the rounds before k. */
  predicate FirstMinimum(l: Limits, fs: seq<Figures>, k: nat, j: nat)
    requires k <= |fs|
  {
    && j < k
    && PrefixMinimum(l, fs, j)
    && forall i :: j < i < k && Saved(l, fs[i]) ==> fs[j].readEnergy <= fs[i].readEnergy
  }

  predicate SomeAffordable(l: Limits, fs: seq<Figures>, k: nat)
    requires k <= |fs|
  {
    exists j :: 0 <= j < k && Saved(l, fs[j]) && fs[j].readEnergy < BIGNUM
  }

  /**
   What a caller can check of the solver to know that the delivered result is alive: some saved round is
   below BIGNUM, or all eight rounds run and the last of them is not saved.
   */
  predicate Safe(l: Limits, fs: seq<Figures>)
    requires |fs| == MAX_ROUNDS
  {
    || SomeAffordable(l, fs, Stop(l, fs))
    || (Stop(l, fs) == MAX_ROUNDS && !Saved(l, fs[MAX_ROUNDS - 1]))
  }

  /**
   No result is dropped without being deleted: no candidate is beaten by a later one, and the last round's
   unsaved result does not lose against a candidate.
   */
  predicate Frugal(l: Limits, fs: seq<Figures>)
    requires |fs| == MAX_ROUNDS
  {
    && !(SomeAffordable(l, fs, Stop(l, fs)) && Stop(l, fs) == MAX_ROUNDS && !Saved(l, fs[MAX_ROUNDS - 1]))
    && forall i, j :: 0 <= i < j < Stop(l, fs) ==> !(PrefixMinimum(l, fs, i) && PrefixMinimum(l, fs, j))
  }

  /** Round j is the one whose figures the search ends with. */
  predicate Delivers(l: Limits, fs: seq<Figures>, j: nat)
    requires |fs| == MAX_ROUNDS
  {
    if SomeAffordable(l, fs, Stop(l, fs)) then FirstMinimum(l, fs, Stop(l, fs), j)
    else j == Stop(l, fs) - 1
  }

  /** The blocks still allocated when the search is over. */
  ghost function Survivors(l: Limits, fs: seq<Figures>): (blocks: set<nat>)
    requires |fs| == MAX_ROUNDS
  {
    var n := Stop(l, fs);
    (set b | b in SavedBlocks(l, fs, n) && PrefixMinimum(l, fs, b - 1))
    + (if n == MAX_ROUNDS && !Saved(l, fs[n - 1]) then {n} else {})
  }

  /** The struct the search ends with: the selected candidate, or else what the last round left behind. */
  ghost function Outcome(l: Limits, fs: seq<Figures>): Org
    requires |fs| == MAX_ROUNDS
  {
    var n := Stop(l, fs);
    var best := Best(Candidates(l, fs, n));
    if best.Some? then best.value
    else Org(if Saved(l, fs[n - 1]) || n == MAX_ROUNDS then Some(n) else None, fs[n - 1])
  }

  /** The warnings for an array that is not a cam. */
  function Warnings(l: Limits, fs: seq<Figures>): seq<Warning>
    requires |fs| == MAX_ROUNDS
  {
    var n := Stop(l, fs);
    if l.assoc == 0 then []
    else (if ThroughputCleared(l, fs, n) then [] else [ThroughputWarning])
         + (if LatencyCleared(l, fs, n) then [] else [LatencyWarning])
  }

  // ----- The imperative search -----

  class ArrayST {
    const limits: Limits
    const cacheSize: nat
    const optForClk: bool
    const optLocal: bool
    const solve: Tuning -> Figures

    var ip: Tuning
    var localResult: Org
    var warnings: seq<Warning>
    var solverCalls: nat

    ghost var live: set<nat>
    ghost var fault: bool
    /** The settings of all solver calls. */
    ghost var asked: seq<Tuning>

    constructor (limits: Limits, cacheSize: nat, optForClk: bool, optLocal: bool,
                 solve: Tuning -> Figures, ip: Tuning)
      ensures this.limits == limits && this.optForClk == optForClk && this.optLocal == optLocal
      ensures this.cacheSize == if cacheSize < 64 then 64 else cacheSize
      ensures this.solve == solve && this.ip == ip && Untouched()
    {
      this.limits, this.optForClk, this.optLocal := limits, optForClk, optLocal;
      this.cacheSize := if cacheSize < 64 then 64 else cacheSize;
      this.solve, this.ip := solve, ip;
      localResult := Org(None, Figures(0.0, 0.0, 0.0, 0.0));
      warnings, solverCalls, live, fault, asked := [], 0, {}, false, [];
    }

    ghost predicate Untouched()
      reads this
    {
      localResult.block == None && warnings == [] && solverCalls == 0 && live == {} && !fault && asked == []
    }

    /** Small arrays are not tightened: over-optimizing them is counterproductive. */
    predicate Eligible() {
      && optForClk && optLocal
      && ((cacheSize > 2048 && limits.assoc != 0) || (cacheSize > 256 && limits.assoc == 0))
    }

    predicate Tightens()
      reads this`ip
    {
      Eligible() && !MeetsBoth(limits, solve(ip))
    }

    /** The solver call: a fresh block, and the figures its settings lead to. */
    method ComputeBasePower()
      modifies this`localResult, this`solverCalls, this`asked, this`live
      ensures localResult == Org(Some(old(solverCalls)), solve(ip))
      ensures solverCalls == old(solverCalls) + 1
      ensures live == old(live) + {old(solverCalls)} && asked == old(asked) + [ip]
    {
      asked := asked + [ip];
      localResult := Org(Some(solverCalls), solve(ip));
      live := live + {solverCalls};
      solverCalls := solverCalls + 1;
    }

    /** `cleanup` on one copy of a result: deletes the block unless the pointer is already null. */
    method Cleanup(org: Org) returns (cleaned: Org)
      modifies this`live, this`fault
      ensures cleaned == org.(block := None)
      ensures org.block == None ==> live == old(live) && fault == old(fault)
      ensures org.block.Some? ==>
                && live == old(live) - {org.block.value}
                && fault == (old(fault) || org.block.value !in old(live))
    {
      if org.block.Some? {
        fault := fault || org.block.value !in live;
        live := live - {org.block.value};
      }
      cleaned := org.(block := None);
    }

    /** Following the pointer of the delivered result, as the power scaling after the search does. */
    method TouchResult()
      modifies this`fault
      ensures fault == (old(fault) || localResult.block == None || localResult.block.value !in live)
    {
      ghost var alive := localResult.block.Some? && localResult.block.value in live;
      fault := fault || !alive;
    }

    /** The destructor. */
    method Destroy()
      modifies this`localResult, this`live, this`fault
      ensures localResult == old(localResult).(block := None)
      ensures old(localResult.block) == None ==> live == old(live) && fault == old(fault)
      ensures old(localResult.block).Some? ==>
                && live == old(live) - {old(localResult.block).value}
                && fault == (old(fault) || old(localResult.block).value !in old(live))
    {
      localResult := Cleanup(localResult);
    }

    /** One round: solve, lower the deviation for the next round, then save or delete the result. */
    method Round(candidates: seq<Org>, throughputOverflow: bool, latencyOverflow: bool)
      returns (candidates': seq<Org>, throughputOverflow': bool, latencyOverflow': bool)
      modifies this`ip, this`localResult, this`solverCalls, this`asked, this`live, this`fault
      requires solverCalls !in live
      ensures ip == old(ip).(cycleTimeDev := old(ip).cycleTimeDev - 10)
      ensures solverCalls == old(solverCalls) + 1 && fault == old(fault) && asked == old(asked) + [old(ip)]
      ensures var f := solve(old(ip));
              var keep := Saved(limits, f) || ip.cycleTimeDev <= OPTIMIZATION_END;
              && localResult == Org(if keep then Some(old(solverCalls)) else None, f)
              && live == old(live) + (if keep then {old(solverCalls)} else {})
              && candidates' == candidates + (if Saved(limits, f) then [localResult] else [])
              && throughputOverflow' == (throughputOverflow && !(MeetsThroughput(limits, f) && Counts(limits, f)))
              && latencyOverflow' == (latencyOverflow && !(MeetsLatency(limits, f) && Counts(limits, f)))
    {
      candidates', throughputOverflow', latencyOverflow' := candidates, throughputOverflow, latencyOverflow;
      ComputeBasePower();
      ip := ip.(cycleTimeDev := ip.cycleTimeDev - 10);
      var f := localResult.figures;
      if MeetsBoth(limits, f) || (f.areaEfficiency < AREA_EFFICIENCY_THRESHOLD && limits.assoc == 0) {
        candidates' := candidates' + [localResult];
        if MeetsBoth(limits, f) {
          throughputOverflow', latencyOverflow' := false, false;
        }
      } else {
        if MeetsThroughput(limits, f) {
          throughputOverflow' := false;
        }
        if MeetsLatency(limits, f) {
          latencyOverflow' := false;
        }
        if ip.cycleTimeDev > OPTIMIZATION_END {
          localResult := Cleanup(localResult);
        }
      }
    }

    /** The result left in place after k rounds. */
    ghost predicate AfterRounds(first: Tuning, k: nat)
      requires k <= MAX_ROUNDS
      reads this
    {
      && asked == [first] + Schedule(k) &&
      var fs := Rounds(solve);
      var kept := k == MAX_ROUNDS && !Saved(limits, fs[k - 1]);
      && ip == Tightened(100 - 10 * k) && solverCalls == 1 + k && !fault
      && live == SavedBlocks(limits, fs, k) + (if kept then {k} else {})
      && (k > 0 ==> localResult == Org(if Saved(limits, fs[k - 1]) || kept then Some(k) else None, fs[k - 1]))
    }

    /** A round takes the state after k rounds to the state after k + 1. */
    method Advance(ghost first: Tuning, ghost k: nat, candidates: seq<Org>, throughputOverflow: bool, latencyOverflow: bool)
      returns (candidates': seq<Org>, throughputOverflow': bool, latencyOverflow': bool)
      requires k < MAX_ROUNDS && AfterRounds(first, k)
      modifies this`ip, this`localResult, this`solverCalls, this`asked, this`live, this`fault
      ensures AfterRounds(first, k + 1)
      ensures var f := Rounds(solve)[k];
              && candidates' == candidates + (if Saved(limits, f) then [RoundOrg(Rounds(solve), k)] else [])
              && throughputOverflow' == (throughputOverflow && !(MeetsThroughput(limits, f) && Counts(limits, f)))
              && latencyOverflow' == (latencyOverflow && !(MeetsLatency(limits, f) && Counts(limits, f)))
    {
      candidates', throughputOverflow', latencyOverflow' := Round(candidates, throughputOverflow, latencyOverflow);
      NextScheduled(first, k);
    }

    /** The tightening loop runs Stop rounds and leaves their candidates and flags. */
    method TightenLoop(ghost first: Tuning) returns (candidates: seq<Org>, throughputOverflow: bool, latencyOverflow: bool)
      requires AfterRounds(first, 0)
      modifies this`ip, this`localResult, this`solverCalls, this`asked, this`live, this`fault
      ensures var fs := Rounds(solve); var n := Stop(limits, fs);
              && AfterRounds(first, n)
              && candidates == Candidates(limits, fs, n)
              && throughputOverflow == !ThroughputCleared(limits, fs, n)
              && latencyOverflow == !LatencyCleared(limits, fs, n)
    {
      ghost var fs := Rounds(solve);
      candidates, throughputOverflow, latencyOverflow := [], true, true;
      ghost var k: nat := 0;
      while (throughputOverflow || latencyOverflow) && ip.cycleTimeDev > OPTIMIZATION_END
        invariant k <= MAX_ROUNDS && AfterRounds(first, k)
        invariant candidates == Candidates(limits, fs, k)
        invariant throughputOverflow == !ThroughputCleared(limits, fs, k)
        invariant latencyOverflow == !LatencyCleared(limits, fs, k)
        invariant StopFrom(limits, fs, 0) == StopFrom(limits, fs, k)
        decreases ip.cycleTimeDev
      {
        ClearedStep(limits, fs, k);
        candidates, throughputOverflow, latencyOverflow := Advance(first, k, candidates, throughputOverflow, latencyOverflow);
        k := k + 1;
      }
    }

    /** The selection loop: keeps the first candidate of minimal energy and deletes the losers. */
    method SelectCandidate(candidates: seq<Org>)
      requires forall i :: 0 <= i < |candidates| ==> candidates[i].block.Some? && candidates[i].block.value in live
      requires forall i, j :: 0 <= i < j < |candidates| ==> candidates[i].block != candidates[j].block
      modifies this`localResult, this`live, this`fault
      ensures Best(candidates).Some? ==> localResult == Best(candidates).value
      ensures Best(candidates) == None ==> localResult == old(localResult)
      ensures live == old(live) - Losers(candidates) && fault == old(fault)
    {
      var minDynamicEnergy := BIGNUM;
      if candidates != [] {
        var i := 0;
        while i < |candidates|
          invariant 0 <= i <= |candidates|
          invariant var b := Best(candidates[..i]);
                    && minDynamicEnergy == (if b.Some? then b.value.figures.readEnergy else BIGNUM)
                    && localResult == (if b.Some? then b.value else old(localResult))
          invariant live == old(live) - Losers(candidates[..i]) && fault == old(fault)
          invariant forall j :: i <= j < |candidates| ==> candidates[j].block.value in live
        {
          assert candidates[..i + 1][..i] == candidates[..i];
          if minDynamicEnergy > candidates[i].figures.readEnergy {
            minDynamicEnergy := candidates[i].figures.readEnergy;
            localResult := candidates[i];
          } else {
            var _ := Cleanup(candidates[i]);
          }
          i := i + 1;
        }
        assert candidates[..i] == candidates;
      }
    }

    /** The search proper, entered when the first solution is not in time. */
    method SearchTightened() returns (throughputOverflow: bool, latencyOverflow: bool)
      requires localResult.block == Some(0) && live == {0} && solverCalls == 1 && !fault && |asked| == 1
      modifies this`ip, this`localResult, this`solverCalls, this`asked, this`live, this`fault
      ensures var fs := Rounds(solve); var n := Stop(limits, fs);
              && solverCalls == 1 + n && !fault && asked == old(asked) + Schedule(n)
              && live == Survivors(limits, fs)
              && localResult == Outcome(limits, fs)
              && throughputOverflow == !ThroughputCleared(limits, fs, n)
              && latencyOverflow == !LatencyCleared(limits, fs, n)
    {
      hide Stop, Best, Losers, Candidates, Survivors, Saved, Rounds;
      ip := Tightened(100);
      localResult := Cleanup(localResult);
      ghost var fs := Rounds(solve);
      NoneSaved(limits, fs);
      assert asked == [asked[0]] + Schedule(0);
      var candidates;
      candidates, throughputOverflow, latencyOverflow := TightenLoop(asked[0]);
      CandidateBlocks(limits, fs, Stop(limits, fs));
      LosersGone(limits, fs);
      SelectCandidate(candidates);
    }

    /**
     The whole search.  It faults exactly when it tightened and the solver was not Safe; what survives of
     its results, which figures it delivers and what it warns about follow from the rounds alone.
     */
    method OptimizeArray()
      requires Untouched()
      modifies this
      ensures !old(Tightens()) ==>
                && solverCalls == 1 && warnings == [] && live == {0} && !fault
                && localResult == Org(Some(0), solve(old(ip))) && asked == [old(ip)]
      ensures old(Tightens()) ==>
                var fs := Rounds(solve);
                && solverCalls == 1 + Stop(limits, fs)
                && warnings == Warnings(limits, fs)
                && live == Survivors(limits, fs)
                && localResult == Outcome(limits, fs)
                && (fault <==> !Safe(limits, fs))
                && asked == [old(ip)] + Schedule(Stop(limits, fs))
      ensures solverCalls > 1 <==>
              && optForClk && optLocal && cacheSize > (if limits.assoc == 0 then 256 else 2048)
              && (solve(old(ip)).cycleTime - limits.throughput > 0.0000000001 ||
                  solve(old(ip)).accessTime - limits.latency > 0.0000000001)
      ensures !fault ==> localResult.block.Some? && localResult.block.value in live
    {
      ComputeBasePower();
      var throughputOverflow := !MeetsThroughput(limits, localResult.figures);
      var latencyOverflow := !MeetsLatency(limits, localResult.figures);
      if Eligible() {
        if throughputOverflow || latencyOverflow {
          throughputOverflow, latencyOverflow := SearchTightened();
          OutcomeAlive(limits, Rounds(solve));
        }
        if limits.assoc > 0 {
          if throughputOverflow {
            warnings := warnings + [ThroughputWarning];
          }
          if latencyOverflow {
            warnings := warnings + [LatencyWarning];
          }
        }
      }
      TouchResult();
    }

    /** Construction to destruction: no block is ever used dead or deleted twice, exactly when Safe. */
    method Live()
      requires Untouched()
      modifies this
      ensures fault <==> solverCalls > 1 && !Safe(limits, Rounds(solve))
      ensures solverCalls > 1 <==>
              && optForClk && optLocal && cacheSize > (if limits.assoc == 0 then 256 else 2048)
              && (solve(old(ip)).cycleTime - limits.throughput > 0.0000000001 ||
                  solve(old(ip)).accessTime - limits.latency > 0.0000000001)
      ensures solverCalls == 1 ==> live == {}
      ensures solverCalls > 1 && !fault ==> (live == {} <==> Frugal(limits, Rounds(solve)))
    {
      hide Safe, Frugal, Survivors, Outcome, Rounds, Stop;
      ghost var tightens := Tightens();
      OptimizeArray();
      if tightens && !fault {
        FrugalMeans(limits, Rounds(solve));
      }
      Destroy();
    }
  }

  lemma {:induction false} CandidateBlocks(l: Limits, fs: seq<Figures>, k: nat)
    requires k <= |fs|
    ensures forall i :: 0 <= i < |Candidates(l, fs, k)| ==>
              var c := Candidates(l, fs, k)[i];
              c.block.Some? && c.block.value in SavedBlocks(l, fs, k)
    ensures forall i, j :: 0 <= i < j < |Candidates(l, fs, k)| ==>
              Candidates(l, fs, k)[i].block != Candidates(l, fs, k)[j].block
  {
    if k > 0 {
      CandidateBlocks(l, fs, k - 1);
    }
  }

  /** The list selection, read back on the rounds: its winner is the first minimum, its losers the rest. */
  lemma {:induction false} SelectionMatchesRounds(l: Limits, fs: seq<Figures>, k: nat)
    requires k <= |fs|
    ensures var b := Best(Candidates(l, fs, k));
            if SomeAffordable(l, fs, k)
            then exists j :: 0 <= j < k && FirstMinimum(l, fs, k, j) && b == Some(RoundOrg(fs, j))
            else b == None
    ensures forall b :: b in Losers(Candidates(l, fs, k)) <==>
              b in SavedBlocks(l, fs, k) && !PrefixMinimum(l, fs, b - 1)
  {
    if k > 0 {
      SelectionMatchesRounds(l, fs, k - 1);
      var cs := Candidates(l, fs, k);
      if Saved(l, fs[k - 1]) {
        assert cs[..|cs| - 1] == Candidates(l, fs, k - 1);
      }
    }
  }

  lemma NoneSaved(l: Limits, fs: seq<Figures>)
    ensures SavedBlocks(l, fs, 0) == {}
  {
  }

  /** What the rounds left behind, less what the selection deletes. */
  lemma LosersGone(l: Limits, fs: seq<Figures>)
    requires |fs| == MAX_ROUNDS
    ensures var n := Stop(l, fs);
            Survivors(l, fs) == SavedBlocks(l, fs, n) + (if n == MAX_ROUNDS && !Saved(l, fs[n - 1]) then {n} else {})
                                - Losers(Candidates(l, fs, n))
  {
    hide Stop, Saved, Candidates, Losers, Best, SavedBlocks;
    SelectionMatchesRounds(l, fs, Stop(l, fs));
  }

  /** The delivered struct points to a live block exactly when the solver is Safe. */
  lemma OutcomeAlive(l: Limits, fs: seq<Figures>)
    requires |fs| == MAX_ROUNDS
    ensures var o := Outcome(l, fs);
            && (o.block.Some? && o.block.value in Survivors(l, fs) <==> Safe(l, fs))
            && exists j :: 0 <= j < MAX_ROUNDS && Delivers(l, fs, j) && o.figures == fs[j]
  {
    SelectionMatchesRounds(l, fs, Stop(l, fs));
  }

  lemma SurvivorsAre(l: Limits, fs: seq<Figures>, b: nat)
    requires |fs| == MAX_ROUNDS
    ensures b in Survivors(l, fs) <==>
            || (1 <= b <= Stop(l, fs) && PrefixMinimum(l, fs, b - 1))
            || (b == Stop(l, fs) == MAX_ROUNDS && !Saved(l, fs[b - 1]))
  {
    hide Stop, Saved;
  }

  /** The block of the delivered struct: a prefix minimum's, or the last round's when there is none. */
  lemma OutcomeBlock(l: Limits, fs: seq<Figures>)
    requires |fs| == MAX_ROUNDS && Safe(l, fs)
    ensures Outcome(l, fs).block.Some?
    ensures var n := Stop(l, fs); var b := Outcome(l, fs).block.value;
            if SomeAffordable(l, fs, n) then 1 <= b <= n && PrefixMinimum(l, fs, b - 1)
            else b == n == MAX_ROUNDS && !Saved(l, fs[n - 1]) && forall i :: 0 <= i < n ==> !PrefixMinimum(l, fs, i)
  {
    SelectionMatchesRounds(l, fs, Stop(l, fs));
    hide Stop, Saved, Candidates, Best;
  }

  /** Deleting the delivered result leaves nothing behind exactly when the search was frugal. */
  lemma FrugalMeans(l: Limits, fs: seq<Figures>)
    requires |fs| == MAX_ROUNDS && Safe(l, fs)
    ensures Outcome(l, fs).block.Some?
    ensures Survivors(l, fs) == {Outcome(l, fs).block.value} <==> Frugal(l, fs)
  {
    hide Stop, Saved, SomeAffordable, Survivors, Outcome, Safe;
    OutcomeBlock(l, fs);
    var n, out := Stop(l, fs), Outcome(l, fs).block.value;
    forall b: nat ensures b in Survivors(l, fs) <==>
            || (1 <= b <= n && PrefixMinimum(l, fs, b - 1)) || (b == n == MAX_ROUNDS && !Saved(l, fs[b - 1]))
    {
      SurvivorsAre(l, fs, b);
    }
    assert out in Survivors(l, fs);
    if Frugal(l, fs) {
      forall b | b in Survivors(l, fs) ensures b == out { }
    } else if exists i, j :: 0 <= i < j < n && PrefixMinimum(l, fs, i) && PrefixMinimum(l, fs, j) {
      var i, j :| 0 <= i < j < n && PrefixMinimum(l, fs, i) && PrefixMinimum(l, fs, j);
      assert i + 1 in Survivors(l, fs) && j + 1 in Survivors(l, fs);
    } else {
      assert MAX_ROUNDS in Survivors(l, fs);
    }
  }

  // ----- What the search promises of well-behaved solvers, and where it fails -----

  /** A constraint met at one deviation is met at every smaller one. */
  predicate StaysMet(l: Limits, fs: seq<Figures>) {
    forall i, j :: 0 <= i < j < |fs| ==>
      && (MeetsThroughput(l, fs[i]) ==> MeetsThroughput(l, fs[j]))
      && (MeetsLatency(l, fs[i]) ==> MeetsLatency(l, fs[j]))
  }

  predicate Affordable(fs: seq<Figures>) {
    forall j :: 0 <= j < |fs| ==> fs[j].readEnergy < BIGNUM
  }

  lemma MonotoneSolverIsSafe(l: Limits, fs: seq<Figures>)
    requires |fs| == MAX_ROUNDS && StaysMet(l, fs) && Affordable(fs)
    ensures Safe(l, fs)
  {
    var n := Stop(l, fs);
    if n < MAX_ROUNDS {
      assert ThroughputCleared(l, fs, n) && LatencyCleared(l, fs, n);
      assert MeetsBoth(l, fs[n - 1]);
    }
  }

  /**
   For arrays that are not cams the result is the one of the largest deviation that meets both
   constraints, the smallest deviation if none does, and the warnings tell the truth about it.
   */
  lemma SetAssociativeDelivery(l: Limits, fs: seq<Figures>, j: nat)
    requires |fs| == MAX_ROUNDS && l.assoc > 0 && StaysMet(l, fs) && Affordable(fs)
    requires j < MAX_ROUNDS && Delivers(l, fs, j)
    ensures forall i :: 0 <= i < j ==> !MeetsBoth(l, fs[i])
    ensures MeetsBoth(l, fs[j]) || j == MAX_ROUNDS - 1
    ensures ThroughputWarning in Warnings(l, fs) <==> !MeetsThroughput(l, fs[j])
    ensures LatencyWarning in Warnings(l, fs) <==> !MeetsLatency(l, fs[j])
  {
    LastRoundDelivered(l, fs, j);
    WarningsExactly(l, fs, j);
    if j < MAX_ROUNDS - 1 {
      assert ThroughputCleared(l, fs, j + 1) && LatencyCleared(l, fs, j + 1);
    }
  }

  /** Away from cams only the last round run can be saved, so it is delivered and nothing else survives. */
  lemma LastRoundDelivered(l: Limits, fs: seq<Figures>, j: nat)
    requires |fs| == MAX_ROUNDS && l.assoc > 0
    requires j < MAX_ROUNDS && Delivers(l, fs, j)
    ensures j == Stop(l, fs) - 1
    ensures forall i :: 0 <= i < j ==> !MeetsBoth(l, fs[i])
    ensures Safe(l, fs) ==> Survivors(l, fs) == {j + 1}
  {
    var n := Stop(l, fs);
    forall i | 0 <= i < n - 1
      ensures !MeetsBoth(l, fs[i])
    {
      assert !(ThroughputCleared(l, fs, i + 1) && LatencyCleared(l, fs, i + 1));
    }
    assert forall b :: b in SavedBlocks(l, fs, n) ==> b == n;
  }

  /**
   Without any assumption on the solver a warning is still never false, and one is missing exactly when
   an earlier round met the constraint that the delivered one violates.
   */
  lemma WarningsExactly(l: Limits, fs: seq<Figures>, j: nat)
    requires |fs| == MAX_ROUNDS && l.assoc > 0
    requires j < MAX_ROUNDS && Delivers(l, fs, j)
    ensures ThroughputWarning in Warnings(l, fs) <==> forall i :: 0 <= i <= j ==> !MeetsThroughput(l, fs[i])
    ensures LatencyWarning in Warnings(l, fs) <==> forall i :: 0 <= i <= j ==> !MeetsLatency(l, fs[i])
  {
    LastRoundDelivered(l, fs, j);
  }

  ghost predicate InTime(figure: real, limit: real) { figure - limit <= 0.0000000001 }

  /** A round whose result is kept: in time in both respects, or a cam that wastes too much area. */
  ghost predicate Kept(l: Limits, f: Figures) {
    || (InTime(f.cycleTime, l.throughput) && InTime(f.accessTime, l.latency))
    || (l.assoc == 0 && f.areaEfficiency < 20.0)
  }

  /** A round that is in time in one respect counts for it, unless it is a cam kept for its area alone. */
  ghost predicate Counted(l: Limits, f: Figures) {
    (InTime(f.cycleTime, l.throughput) && InTime(f.accessTime, l.latency)) || !(l.assoc == 0 && f.areaEfficiency < 20.0)
  }

  ghost predicate Settled(l: Limits, fs: seq<Figures>, n: nat)
    requires n <= |fs|
  {
    && (exists i :: 0 <= i < n && InTime(fs[i].cycleTime, l.throughput) && Counted(l, fs[i]))
    && (exists i :: 0 <= i < n && InTime(fs[i].accessTime, l.latency) && Counted(l, fs[i]))
  }

  /** The search runs up to the first round by which both limits have been met, or all eight. */
  lemma RoundsRun(l: Limits, fs: seq<Figures>)
    requires |fs| == 8
    ensures var n := Stop(l, fs);
            (Settled(l, fs, n) || n == 8) && forall m :: 0 <= m < n ==> !Settled(l, fs, m)
  {
    forall m | 0 <= m <= 8
      ensures Settled(l, fs, m) <==> ThroughputCleared(l, fs, m) && LatencyCleared(l, fs, m)
    {
      forall i | 0 <= i < m ensures Counts(l, fs[i]) <==> Counted(l, fs[i]) { }
    }
  }

  /** What is delivered is kept, and needs the least read energy of what is, the first of them on a tie. */
  lemma LeastEnergyDelivered(l: Limits, fs: seq<Figures>, j: nat)
    requires |fs| == 8 && j < 8 && Delivers(l, fs, j)
    ensures var n := Stop(l, fs);
            if exists i :: 0 <= i < n && Kept(l, fs[i]) && fs[i].readEnergy < BIGNUM then
              && j < n && Kept(l, fs[j])
              && (forall i :: 0 <= i < n && Kept(l, fs[i]) ==> fs[j].readEnergy <= fs[i].readEnergy)
              && (forall i :: 0 <= i < j && Kept(l, fs[i]) ==> fs[j].readEnergy < fs[i].readEnergy)
            else j == n - 1
  {
    var n := Stop(l, fs);
    forall i | 0 <= i < n ensures Saved(l, fs[i]) <==> Kept(l, fs[i]) { }
    hide Saved, Stop, Kept;
  }

  /** Two rounds that each meet one constraint end the search on a result already deleted. */
  lemma AlternatingSolverIsUnsafe()
    ensures exists l: Limits, fs: seq<Figures> ::
              |fs| == MAX_ROUNDS && l.assoc > 0 && Affordable(fs) && !Safe(l, fs)
  {
    var l := Limits(1, 1.0, 1.0);
    var early := Figures(1.0, 2.0, 0.0, 50.0);
    var late := Figures(2.0, 1.0, 0.0, 50.0);
    var fs := [early, late, late, late, late, late, late, late];
    assert MeetsThroughput(l, fs[0]) && Counts(l, fs[0]);
    assert MeetsLatency(l, fs[1]) && Counts(l, fs[1]);
    assert StopFrom(l, fs, 1) == StopFrom(l, fs, 2) == 2;
    assert Stop(l, fs) == 2;
    assert !Safe(l, fs);
  }

  /** A candidate that a later one beats is dropped without being deleted. */
  lemma BeatenCandidateLeaks()
    ensures exists l: Limits, fs: seq<Figures> ::
              |fs| == MAX_ROUNDS && StaysMet(l, fs) && Affordable(fs) && {1, 2} <= Survivors(l, fs)
  {
    var l := Limits(0, 1.0, 1.0);
    var dear := Figures(2.0, 2.0, 5.0, 10.0);
    var cheap := Figures(1.0, 1.0, 4.0, 10.0);
    var fs := [dear, cheap, cheap, cheap, cheap, cheap, cheap, cheap];
    assert MeetsThroughput(l, fs[1]) && Counts(l, fs[1]);
    assert MeetsLatency(l, fs[1]) && Counts(l, fs[1]);
    assert !ThroughputCleared(l, fs, 1);
    assert StopFrom(l, fs, 1) == StopFrom(l, fs, 2) == 2;
    assert Stop(l, fs) == 2;
    assert PrefixMinimum(l, fs, 0) && PrefixMinimum(l, fs, 1);
    assert 1 in Survivors(l, fs) && 2 in Survivors(l, fs);
  }

  lemma ClearedStep(l: Limits, fs: seq<Figures>, k: nat)
    requires k < |fs|
    ensures ThroughputCleared(l, fs, k + 1) ==
            (ThroughputCleared(l, fs, k) || (MeetsThroughput(l, fs[k]) && Counts(l, fs[k])))
    ensures LatencyCleared(l, fs, k + 1) ==
            (LatencyCleared(l, fs, k) || (MeetsLatency(l, fs[k]) && Counts(l, fs[k])))
  {
  }
}
