/**
 The parameter sweep's bounded pool: jobs are started while the pool and the machine's load allow, finished
 processes are reaped in passes over the pool, and the rest is waited for at the end.

 Processes exit, and the load varies, at any time; the sweep is therefore a transition system in which
 those are steps of the environment.  A job is its number in the list of jobs.
 */
module Sweep {

  datatype Phase =
    | Deciding
    | Polling(pending: seq<nat>, still: seq<nat>)
    | Finishing(done: nat)
    | Done

  /** `parsed` lists the jobs whose results have been read, `exited` those whose process has ended. */
  datatype State = State(phase: Phase, next: nat, running: seq<nat>, parsed: seq<nat>, exited: set<nat>)

  datatype Config = Config(jobs: nat, maxParallel: nat)

  const START := State(Deciding, 0, [], [], {})

  /** A started process ends. */
  ghost predicate Exit(s: State, t: State, j: nat) {
    j < s.next && j !in s.exited && t == s.(exited := s.exited + {j})
  }

  /** The pool is full or the machine busy: a pass over the pool begins. */
  ghost predicate StartPass(c: Config, s: State, t: State, busy: bool) {
    && s.phase == Deciding && s.next < c.jobs && (|s.running| >= c.maxParallel || busy)
    && t == s.(phase := Polling(s.running, []))
  }

  ghost predicate PollOne(s: State, t: State) {
    && s.phase.Polling? && s.phase.pending != []
    && var p, rest := s.phase.pending[0], s.phase.pending[1..];
       if p in s.exited then t == s.(phase := Polling(rest, s.phase.still), parsed := s.parsed + [p])
       else t == s.(phase := Polling(rest, s.phase.still + [p]))
  }

  ghost predicate EndPass(s: State, t: State) {
    s.phase.Polling? && s.phase.pending == [] && t == s.(phase := Deciding, running := s.phase.still)
  }

  ghost predicate Launch(c: Config, s: State, t: State) {
    && s.phase == Deciding && s.next < c.jobs && |s.running| < c.maxParallel
    && t == s.(next := s.next + 1, running := s.running + [s.next])
  }

  ghost predicate AllLaunched(c: Config, s: State, t: State) {
    s.phase == Deciding && s.next == c.jobs && t == s.(phase := Finishing(0))
  }

  ghost predicate WaitOne(s: State, t: State) {
    && s.phase.Finishing? && s.phase.done < |s.running| && s.running[s.phase.done] in s.exited
    && t == s.(phase := Finishing(s.phase.done + 1), parsed := s.parsed + [s.running[s.phase.done]])
  }

  ghost predicate Finish(s: State, t: State) {
    s.phase.Finishing? && s.phase.done >= |s.running| && t == s.(phase := Done)
  }

  ghost predicate Next(c: Config, s: State, t: State) {
    || (exists j :: Exit(s, t, j)) || (exists busy :: StartPass(c, s, t, busy)) || PollOne(s, t) || EndPass(s, t)
    || Launch(c, s, t) || AllLaunched(c, s, t) || WaitOne(s, t) || Finish(s, t)
  }

  ghost predicate IsRun(c: Config, run: seq<State>) {
    && run != [] && run[0] == START
    && forall i :: 0 <= i < |run| - 1 ==> Next(c, run[i], run[i + 1])
  }

  /** The started jobs whose results have not been read yet. */
  function Active(s: State): seq<nat> {
    match s.phase
    case Deciding => s.running
    case Polling(pending, still) => pending + still
    case Finishing(k) => if k <= |s.running| then s.running[k..] else []
    case Done => []
  }

  /** The jobs 0 to n - 1, once each. */
  ghost function Jobs(n: nat): multiset<nat> {
    if n == 0 then multiset{} else Jobs(n - 1) + multiset{n - 1}
  }

  /** What holds in every reachable state. */
  ghost predicate Inv(c: Config, s: State) {
    && |s.running| <= c.maxParallel && |Active(s)| <= |s.running| && s.next <= c.jobs
    && multiset(Active(s)) + multiset(s.parsed) == Jobs(s.next)
    && (forall j :: j in s.parsed ==> j in s.exited)
    && (forall j :: j in s.exited ==> j < s.next)
    && (s.phase.Finishing? || s.phase == Done ==> s.next == c.jobs)
    && (s.phase.Finishing? ==> s.phase.done <= |s.running|)
  }

  lemma {:induction false} JobsMembers(n: nat)
    ensures forall j: nat :: Jobs(n)[j] == if j < n then 1 else 0
  {
    if n > 0 {
      JobsMembers(n - 1);
    }
  }

  lemma PollKeeps(c: Config, s: State, t: State)
    requires Inv(c, s) && PollOne(s, t)
    ensures Inv(c, t)
  {
    var p, rest := s.phase.pending[0], s.phase.pending[1..];
    assert s.phase.pending == [p] + rest;
    assert Active(s) == [p] + rest + s.phase.still;
    assert multiset(Active(s)) == multiset{p} + multiset(rest) + multiset(s.phase.still);
    if p in s.exited {
      assert multiset(Active(t)) == multiset(rest) + multiset(s.phase.still);
      assert multiset(t.parsed) == multiset(s.parsed) + multiset{p};
    } else {
      assert Active(t) == rest + s.phase.still + [p];
      assert multiset(Active(t)) == multiset(rest) + multiset(s.phase.still) + multiset{p};
    }
  }

  lemma WaitKeeps(c: Config, s: State, t: State)
    requires Inv(c, s) && WaitOne(s, t)
    ensures Inv(c, t)
  {
    var k := s.phase.done;
    assert Active(s) == [s.running[k]] + Active(t);
    assert multiset(Active(s)) == multiset{s.running[k]} + multiset(Active(t));
    assert multiset(t.parsed) == multiset(s.parsed) + multiset{s.running[k]};
  }

  lemma LaunchKeeps(c: Config, s: State, t: State)
    requires Inv(c, s) && Launch(c, s, t)
    ensures Inv(c, t)
  {
    assert multiset(t.running) == multiset(s.running) + multiset{s.next};
  }

  lemma ExitKeeps(c: Config, s: State, t: State, j: nat)
    requires Inv(c, s) && Exit(s, t, j)
    ensures Inv(c, t)
  {
    assert Active(t) == Active(s);
  }

  lemma PhaseKeeps(c: Config, s: State, t: State)
    requires Inv(c, s) && (EndPass(s, t) || Finish(s, t) || AllLaunched(c, s, t))
    ensures Inv(c, t)
  {
    hide Jobs;
    if EndPass(s, t) {
      assert s.phase.pending + s.phase.still == s.phase.still;
    } else if Finish(s, t) {
      assert s.running[|s.running|..] == [];
    } else {
      assert s.running[0..] == s.running;
    }
    assert Active(t) == Active(s);
  }

  lemma StepKeeps(c: Config, s: State, t: State)
    requires Inv(c, s) && Next(c, s, t)
    ensures Inv(c, t)
  {
    hide Jobs, PollOne, WaitOne, Launch, Exit, EndPass, Finish, AllLaunched;
    if PollOne(s, t) {
      PollKeeps(c, s, t);
    } else if WaitOne(s, t) {
      WaitKeeps(c, s, t);
    } else if Launch(c, s, t) {
      LaunchKeeps(c, s, t);
    } else if EndPass(s, t) || Finish(s, t) || AllLaunched(c, s, t) {
      PhaseKeeps(c, s, t);
    } else if j :| Exit(s, t, j) {
      ExitKeeps(c, s, t, j);
    } else {
      var busy :| StartPass(c, s, t, busy);
      assert s.running + [] == s.running;
    }
  }

  lemma {:induction false} RunKeeps(c: Config, run: seq<State>, i: nat)
    requires IsRun(c, run) && i < |run|
    ensures Inv(c, run[i])
  {
    if i > 0 {
      RunKeeps(c, run, i - 1);
      StepKeeps(c, run[i - 1], run[i - 1 + 1]);
    }
  }

  /**
   Safety over whole runs: the pool is never exceeded, every started job is either still active or parsed,
   and is so once; nothing is parsed before its process has exited.
   */
  lemma RunSafe(c: Config, run: seq<State>, i: nat)
    requires IsRun(c, run) && i < |run|
    ensures var s := run[i];
            && |s.running| <= c.maxParallel
            && (forall j: nat :: multiset(Active(s))[j] + multiset(s.parsed)[j] == if j < s.next then 1 else 0)
            && (forall j :: j in s.parsed ==> j in s.exited)
  {
    RunKeeps(c, run, i);
    JobsMembers(run[i].next);
    var s := run[i];
    assert forall j: nat :: (multiset(Active(s)) + multiset(s.parsed))[j] == multiset(Active(s))[j] + multiset(s.parsed)[j];
  }

  /** No more processes are alive than the pool may hold. */
  lemma LiveBounded(c: Config, run: seq<State>, i: nat, live: set<nat>)
    requires IsRun(c, run) && i < |run|
    requires forall j :: j in live ==> j < run[i].next && j !in run[i].exited
    ensures |live| <= c.maxParallel
  {
    RunSafe(c, run, i);
    RunKeeps(c, run, i);
    var s := run[i];
    forall j | j in live ensures j in Active(s) {
      assert j !in s.parsed && multiset(s.parsed)[j] == 0 && multiset(Active(s))[j] == 1;
    }
    SetInSeq(live, Active(s));
  }

  lemma {:induction false} SetInSeq(a: set<nat>, xs: seq<nat>)
    requires forall j :: j in a ==> j in xs
    ensures |a| <= |xs|
    decreases |xs|
  {
    if xs == [] {
      assert a == {};
    } else {
      var x := xs[0];
      assert xs == [x] + xs[1..];
      SetInSeq(a - {x}, xs[1..]);
      assert a <= (a - {x}) + {x};
      if x in a {
        assert a == (a - {x}) + {x};
      } else {
        assert a - {x} == a;
      }
    }
  }

  /** A run that ends has read every job's results exactly once, each after its process had exited. */
  lemma RunComplete(c: Config, run: seq<State>)
    requires IsRun(c, run) && run[|run| - 1].phase == Done
    ensures var s := run[|run| - 1];
            && (forall j: nat :: multiset(s.parsed)[j] == if j < c.jobs then 1 else 0)
            && |s.parsed| == c.jobs
            && (forall j: nat :: j < c.jobs ==> j in s.exited)
  {
    RunKeeps(c, run, |run| - 1);
    JobsMembers(c.jobs);
    var s := run[|run| - 1];
    assert multiset(s.parsed) == Jobs(c.jobs);
    JobsSize(c.jobs);
    assert |multiset(s.parsed)| == |s.parsed|;
    forall j | 0 <= j < c.jobs ensures j in s.exited {
      assert multiset(s.parsed)[j] == 1;
      assert j in s.parsed;
    }
  }

  lemma {:induction false} JobsSize(n: nat)
    ensures |Jobs(n)| == n
  {
    if n > 0 {
      JobsSize(n - 1);
    }
  }

  // ----- The loops of the script -----

  /** The jobs whose process a poll finds ended, given the polls' answers. */
  function Ended(js: seq<nat>, polls: seq<bool>): seq<nat>
    requires |polls| == |js|
  {
    if js == [] then [] else (if polls[0] then [js[0]] else []) + Ended(js[1..], polls[1..])
  }

  function Alive(js: seq<nat>, polls: seq<bool>): seq<nat>
    requires |polls| == |js|
  {
    if js == [] then [] else (if polls[0] then [] else [js[0]]) + Alive(js[1..], polls[1..])
  }

  /** The jobs that left a results file; the others are dropped with a warning. */
  function WithResults(js: seq<nat>, present: nat -> bool): seq<nat> {
    if js == [] then [] else (if present(js[0]) then [js[0]] else []) + WithResults(js[1..], present)
  }

  function ToSet(js: seq<nat>): set<nat> { set j | j in js }

  lemma FilterNone()
    ensures Alive([], []) == [] && Ended([], []) == []
  {
  }

  lemma FilterFirst(js: seq<nat>, polls: seq<bool>)
    requires js != [] && |polls| == |js|
    ensures Alive(js, polls) == (if polls[0] then [] else [js[0]]) + Alive(js[1..], polls[1..])
    ensures Ended(js, polls) == (if polls[0] then [js[0]] else []) + Ended(js[1..], polls[1..])
  {
  }

  lemma TailPrefix<T>(xs: seq<T>, i: nat)
    requires 0 < i <= |xs|
    ensures xs[..i][1..] == xs[1..][..i - 1]
  {
  }

  lemma {:induction false} AliveAppend(js: seq<nat>, polls: seq<bool>, j: nat, ended: bool)
    requires |js| == |polls|
    ensures Alive(js + [j], polls + [ended]) == Alive(js, polls) + (if ended then [] else [j])
  {
    var b, p := js + [j], polls + [ended];
    if js == [] {
      assert b[1..] == [] && p[1..] == [];
    } else {
      AliveAppend(js[1..], polls[1..], j, ended);
      assert b[1..] == js[1..] + [j] && p[1..] == polls[1..] + [ended];
      assert b[0] == js[0] && p[0] == polls[0];
    }
  }

  lemma {:induction false} EndedAppend(js: seq<nat>, polls: seq<bool>, j: nat, ended: bool)
    requires |js| == |polls|
    ensures Ended(js + [j], polls + [ended]) == Ended(js, polls) + (if ended then [j] else [])
  {
    var b, p := js + [j], polls + [ended];
    if js == [] {
      assert b[1..] == [] && p[1..] == [];
    } else {
      EndedAppend(js[1..], polls[1..], j, ended);
      assert b[1..] == js[1..] + [j] && p[1..] == polls[1..] + [ended];
      assert b[0] == js[0] && p[0] == polls[0];
    }
  }

  lemma FilterNext(js: seq<nat>, polls: seq<bool>, i: nat)
    requires i < |js| == |polls|
    ensures Alive(js[..i + 1], polls[..i + 1]) == Alive(js[..i], polls[..i]) + (if polls[i] then [] else [js[i]])
    ensures Ended(js[..i + 1], polls[..i + 1]) == Ended(js[..i], polls[..i]) + (if polls[i] then [js[i]] else [])
  {
    hide Alive, Ended;
    AliveAppend(js[..i], polls[..i], js[i], polls[i]);
    EndedAppend(js[..i], polls[..i], js[i], polls[i]);
    assert js[..i + 1] == js[..i] + [js[i]] && polls[..i + 1] == polls[..i] + [polls[i]];
  }

  lemma {:induction false} WithResultsAppend(a: seq<nat>, j: nat, present: nat -> bool)
    ensures WithResults(a + [j], present) == WithResults(a, present) + (if present(j) then [j] else [])
  {
    var b := a + [j];
    if a == [] {
      assert b == [j] && b[1..] == [];
    } else {
      WithResultsAppend(a[1..], j, present);
      assert b[1..] == a[1..] + [j] && b[0] == a[0];
      var head := if present(a[0]) then [a[0]] else [];
      assert WithResults(b, present) == head + WithResults(a[1..] + [j], present);
      assert WithResults(a, present) == head + WithResults(a[1..], present);
    }
  }

  /** Results are those of the jobs that left a file, as often as they were read. */
  lemma {:induction false} ResultsExactly(js: seq<nat>, present: nat -> bool)
    ensures forall j: nat :: multiset(WithResults(js, present))[j] == if present(j) then multiset(js)[j] else 0
  {
    if js != [] {
      ResultsExactly(js[1..], present);
      assert js == [js[0]] + js[1..];
    }
  }

  /** They come in the order of the jobs: the first jobs' results are the first. */
  lemma {:induction false} ResultsInOrder(js: seq<nat>, k: nat, present: nat -> bool)
    requires k <= |js|
    ensures WithResults(js[..k], present) <= WithResults(js, present)
  {
    if k > 0 {
      ResultsInOrder(js[1..], k - 1, present);
      TailPrefix(js, k);
      assert js[..k][0] == js[0];
    }
  }

  class Sweeper {
    const present: nat -> bool
    var running: seq<nat>
    var results: seq<nat>
    ghost var parsed: seq<nat>
    ghost var exited: set<nat>

    constructor (present: nat -> bool)
      ensures this.present == present && running == [] && results == [] && parsed == [] && exited == {}
    {
      this.present, running, results, parsed, exited := present, [], [], [], {};
    }

    /** Results are kept of what has been read, which is read of ended processes only. */
    ghost predicate Valid()
      reads this
    {
      results == WithResults(parsed, present) && forall j :: j in parsed ==> j in exited
    }

    method Parse(j: nat)
      requires Valid() && j in exited
      modifies this`results, this`parsed
      ensures Valid() && parsed == old(parsed) + [j]
    {
      WithResultsAppend(parsed, j, present);
      parsed := parsed + [j];
      if present(j) {
        results := results + [j];
      }
    }

    /** Asks a process whether it has ended; the answer is known to the environment. */
    method Poll(j: nat, answer: bool) returns (ended: bool)
      requires Valid() && (j in exited ==> answer)
      modifies this`exited
      ensures Valid() && ended == answer && exited == old(exited) + if ended then {j} else {}
    {
      ended := answer;
      exited := exited + if ended then {j} else {};
    }

    /** Returns once the process has ended. */
    method Wait(j: nat)
      requires Valid()
      modifies this`exited
      ensures Valid() && exited == old(exited) + {j}
    {
      exited := exited + {j};
    }

    /** One pass over the pool. */
    method ReapPass(polls: seq<bool>)
      requires Valid() && |polls| == |running| && Distinct(running) && Consistent(running, polls, exited)
      modifies this
      ensures Valid()
      ensures running == Alive(old(running), polls) && parsed == old(parsed) + Ended(old(running), polls)
      ensures exited == old(exited) + ToSet(Ended(old(running), polls))
    {
      hide WithResults, Alive, Ended;
      var stillRunning := [];
      var i := 0;
      FilterNone();
      assert running[..0] == [] && polls[..0] == [];
      while i < |running|
        invariant 0 <= i <= |running| && running == old(running) && Valid()
        invariant stillRunning == Alive(running[..i], polls[..i])
        invariant parsed == old(parsed) + Ended(running[..i], polls[..i])
        invariant exited == old(exited) + ToSet(Ended(running[..i], polls[..i]))
        invariant forall k :: i <= k < |running| && running[k] in exited ==> polls[k]
      {
        FilterNext(running, polls, i);
        var ended := Poll(running[i], polls[i]);
        if !ended {
          stillRunning := stillRunning + [running[i]];
        } else {
          Parse(running[i]);
        }
        i := i + 1;
      }
      assert running[..i] == running && polls[..i] == polls;
      running := stillRunning;
    }

    /** The final loop: waits for each process and reads its results. */
    method FinalWait()
      requires Valid()
      modifies this`results, this`parsed, this`exited
      ensures Valid() && parsed == old(parsed) + running && exited == old(exited) + ToSet(running)
    {
      hide WithResults;
      var i := 0;
      while i < |running|
        invariant 0 <= i <= |running| && Valid() && parsed == old(parsed) + running[..i]
        invariant exited == old(exited) + ToSet(running[..i])
      {
        assert running[..i + 1] == running[..i] + [running[i]];
        Wait(running[i]);
        Parse(running[i]);
        i := i + 1;
      }
      assert running[..i] == running;
    }
  }

  ghost predicate Distinct(js: seq<nat>) {
    forall i, k :: 0 <= i < k < |js| ==> js[i] != js[k]
  }

  /** A process that has ended is found to have. */
  ghost predicate Consistent(js: seq<nat>, polls: seq<bool>, exited: set<nat>)
    requires |polls| == |js|
  {
    forall k :: 0 <= k < |js| && js[k] in exited ==> polls[k]
  }

  // ----- The loops as runs of the system -----

  ghost predicate Steps(c: Config, s: State, t: State, n: nat)
    decreases n
  {
    if n == 0 then s == t else exists u :: Next(c, s, u) && Steps(c, u, t, n - 1)
  }

  ghost predicate Reaches(c: Config, s: State, t: State) {
    exists n: nat :: Steps(c, s, t, n)
  }

  lemma StepReaches(c: Config, s: State, u: State, t: State)
    requires Next(c, s, u) && Reaches(c, u, t)
    ensures Reaches(c, s, t)
  {
    hide Next;
    var n: nat :| Steps(c, u, t, n);
    assert Steps(c, s, t, n + 1);
  }

  lemma ReachesSelf(c: Config, s: State)
    ensures Reaches(c, s, s)
  {
    assert Steps(c, s, s, 0);
  }

  lemma {:induction false} StepsThen(c: Config, s: State, u: State, t: State, n: nat)
    requires Steps(c, s, u, n) && Reaches(c, u, t)
    ensures Reaches(c, s, t)
    decreases n
  {
    hide Next, Reaches;
    if n > 0 {
      var v :| Next(c, s, v) && Steps(c, v, u, n - 1);
      StepsThen(c, v, u, t, n - 1);
      StepReaches(c, s, v, t);
    }
  }

  lemma ReachesThen(c: Config, s: State, u: State, t: State)
    requires Reaches(c, s, u) && Reaches(c, u, t)
    ensures Reaches(c, s, t)
  {
    var n: nat :| Steps(c, s, u, n);
    hide Reaches, Steps;
    StepsThen(c, s, u, t, n);
  }

  lemma {:induction false} StepsKeep(c: Config, s: State, t: State, n: nat)
    requires Inv(c, s) && Steps(c, s, t, n)
    ensures Inv(c, t)
    decreases n
  {
    hide Inv, Next;
    if n > 0 {
      var u :| Next(c, s, u) && Steps(c, u, t, n - 1);
      StepKeeps(c, s, u);
      StepsKeep(c, u, t, n - 1);
    }
  }

  lemma ReachesKeeps(c: Config, s: State, t: State)
    requires Inv(c, s) && Reaches(c, s, t)
    ensures Inv(c, t)
  {
    var n: nat :| Steps(c, s, t, n);
    hide Inv, Steps;
    StepsKeep(c, s, t, n);
  }

  /** Active jobs are started and listed once. */
  lemma ActiveDistinct(c: Config, s: State)
    requires Inv(c, s)
    ensures Distinct(Active(s)) && forall j :: j in Active(s) ==> j < s.next
  {
    hide Active;
    JobsMembers(s.next);
    var js := Active(s);
    forall j | j in js ensures j < s.next && multiset(js)[j] <= 1 {
      assert (multiset(js) + multiset(s.parsed))[j] >= multiset(js)[j] >= 1;
    }
    forall i, k | 0 <= i < k < |js| ensures js[i] != js[k] {
      TwiceListed(js, i, k);
      assert js[i] in js;
    }
  }

  lemma TwiceListed(js: seq<nat>, i: nat, k: nat)
    requires i < k < |js|
    ensures js[i] == js[k] ==> multiset(js)[js[i]] >= 2
  {
    assert js == js[..k] + [js[k]] + js[k + 1..];
    assert js[..k][i] in js[..k];
    assert multiset(js) == multiset(js[..k]) + multiset{js[k]} + multiset(js[k + 1..]);
  }

  /** If the process is still running, it exits. */
  function Ending(s: State, j: nat): State { s.(exited := s.exited + {j}) }

  lemma EndingReaches(c: Config, s: State, j: nat, t: State)
    requires j < s.next && Reaches(c, Ending(s, j), t)
    ensures Reaches(c, s, t)
  {
    hide Reaches;
    var u := Ending(s, j);
    if j in s.exited {
      assert u.exited == s.exited;
    } else {
      assert Exit(s, u, j);
      assert Next(c, s, u);
      StepReaches(c, s, u, t);
    }
  }

  function Passed(s: State, polls: seq<bool>): State
    requires s.phase.Polling? && |polls| == |s.phase.pending|
  {
    var ended := Ended(s.phase.pending, polls);
    s.(phase := Polling([], s.phase.still + Alive(s.phase.pending, polls)), parsed := s.parsed + ended,
       exited := s.exited + ToSet(ended))
  }

  /** The state after the first poll, the process having exited before it if that is the answer. */
  function Polled(s: State, ended: bool): State
    requires s.phase.Polling? && s.phase.pending != []
  {
    var p, rest := s.phase.pending[0], s.phase.pending[1..];
    if ended then Ending(s, p).(phase := Polling(rest, s.phase.still), parsed := s.parsed + [p])
    else s.(phase := Polling(rest, s.phase.still + [p]))
  }

  lemma PolledPassed(s: State, polls: seq<bool>)
    requires s.phase.Polling? && s.phase.pending != [] && |polls| == |s.phase.pending|
    ensures Passed(Polled(s, polls[0]), polls[1..]) == Passed(s, polls)
  {
    var js, still := s.phase.pending, s.phase.still;
    FilterFirst(js, polls);
    var alive, ended := Alive(js[1..], polls[1..]), Ended(js[1..], polls[1..]);
    hide Alive, Ended;
    if polls[0] {
      assert s.parsed + [js[0]] + ended == s.parsed + ([js[0]] + ended);
      assert [] + alive == alive;
      assert s.exited + {js[0]} + ToSet(ended) == s.exited + ToSet([js[0]] + ended);
    } else {
      assert still + [js[0]] + alive == still + ([js[0]] + alive);
      assert [] + ended == ended;
    }
  }

  lemma PolledReaches(c: Config, s: State, ended: bool, t: State)
    requires s.phase.Polling? && s.phase.pending != [] && s.phase.pending[0] < s.next
    requires (s.phase.pending[0] in s.exited ==> ended) && Reaches(c, Polled(s, ended), t)
    ensures Reaches(c, s, t)
  {
    hide Reaches;
    var p, u := s.phase.pending[0], Polled(s, ended);
    if ended {
      assert PollOne(Ending(s, p), u) && Next(c, Ending(s, p), u);
      StepReaches(c, Ending(s, p), u, t);
      EndingReaches(c, s, p, t);
    } else {
      assert PollOne(s, u) && Next(c, s, u);
      StepReaches(c, s, u, t);
    }
  }

  lemma StillConsistent(js: seq<nat>, polls: seq<bool>, exited: set<nat>)
    requires js != [] && |polls| == |js| && Distinct(js) && Consistent(js, polls, exited)
    ensures Consistent(js[1..], polls[1..], exited) && Consistent(js[1..], polls[1..], exited + {js[0]})
    ensures Distinct(js[1..])
  {
    assert forall k :: 0 <= k < |js[1..]| ==> js[1..][k] == js[k + 1] && polls[1..][k] == polls[k + 1];
    assert forall k :: 0 <= k < |js[1..]| ==> js[1..][k] != js[0];
  }

  /** The loop over the pool is a run of polls and exits, for all answers the processes can give. */
  lemma {:induction false} PassIsPolls(c: Config, s: State, polls: seq<bool>)
    requires s.phase.Polling? && |polls| == |s.phase.pending|
    requires Distinct(s.phase.pending) && Consistent(s.phase.pending, polls, s.exited)
    requires forall j :: j in s.phase.pending ==> j < s.next
    ensures Reaches(c, s, Passed(s, polls))
    decreases |s.phase.pending|
  {
    hide Reaches;
    var js := s.phase.pending;
    if js == [] {
      assert s.phase.still + [] == s.phase.still && s.parsed + [] == s.parsed && s.exited + ToSet([]) == s.exited;
      ReachesSelf(c, s);
    } else {
      hide Passed;
      var u := Polled(s, polls[0]);
      assert js[0] in js && forall k :: 0 <= k < |js[1..]| ==> js[1..][k] == js[k + 1];
      StillConsistent(js, polls, s.exited);
      assert forall j :: j in js[1..] ==> j in js;
      PassIsPolls(c, u, polls[1..]);
      PolledPassed(s, polls);
      PolledReaches(c, s, polls[0], Passed(s, polls));
    }
  }

  /** The state after a whole pass, as the method leaves it. */
  function Reaped(s: State, polls: seq<bool>): State
    requires |polls| == |s.running|
  {
    var ended := Ended(s.running, polls);
    s.(running := Alive(s.running, polls), parsed := s.parsed + ended, exited := s.exited + ToSet(ended))
  }

  lemma PassReaches(c: Config, s: State, polls: seq<bool>)
    requires Inv(c, s) && s.phase == Deciding && s.next < c.jobs
    requires |polls| == |s.running| && Consistent(s.running, polls, s.exited)
    ensures Reaches(c, s, Reaped(s, polls))
  {
    ActiveDistinct(c, s);
    var u := s.(phase := Polling(s.running, []));
    hide Inv, Reaches;
    PassIsPolls(c, u, polls);
    var v, t := Passed(u, polls), Reaped(s, polls);
    assert [] + Alive(s.running, polls) == Alive(s.running, polls);
    assert EndPass(v, t) && Next(c, v, t);
    ReachesSelf(c, t);
    StepReaches(c, v, t, t);
    ReachesThen(c, u, v, t);
    assert StartPass(c, s, u, true) && Next(c, s, u);
    StepReaches(c, s, u, t);
  }

  /** The state once the jobs of the pool from position k on have been waited for. */
  function Waited(s: State, k: nat): State
    requires k <= |s.running|
  {
    s.(phase := Done, parsed := s.parsed + s.running[k..], exited := s.exited + ToSet(s.running[k..]))
  }

  function WaitedOne(s: State, k: nat): State
    requires k < |s.running|
  {
    Ending(s, s.running[k]).(phase := Finishing(k + 1), parsed := s.parsed + [s.running[k]])
  }

  lemma WaitedFirst(s: State, k: nat)
    requires k < |s.running|
    ensures Waited(WaitedOne(s, k), k + 1) == Waited(s, k)
  {
    var j, more := s.running[k], s.running[k + 1..];
    assert s.running[k..] == [j] + more;
    assert s.parsed + [j] + more == s.parsed + ([j] + more);
    assert s.exited + {j} + ToSet(more) == s.exited + ToSet([j] + more);
  }

  /** The final loop is a run of waits, each after its process's exit. */
  lemma {:induction false} WaitReaches(c: Config, s: State)
    requires s.phase.Finishing? && s.phase.done <= |s.running|
    requires forall i :: s.phase.done <= i < |s.running| ==> s.running[i] < s.next
    ensures Reaches(c, s, Waited(s, s.phase.done))
    decreases |s.running| - s.phase.done
  {
    hide Reaches;
    var k := s.phase.done;
    var t := Waited(s, k);
    if k == |s.running| {
      assert s.parsed + [] == s.parsed && s.exited + ToSet([]) == s.exited && s.running[k..] == [];
      assert Finish(s, t) && Next(c, s, t);
      ReachesSelf(c, t);
      StepReaches(c, s, t, t);
    } else {
      var u, v := Ending(s, s.running[k]), WaitedOne(s, k);
      WaitReaches(c, v);
      WaitedFirst(s, k);
      assert WaitOne(u, v) && Next(c, u, v);
      hide Waited, Next;
      StepReaches(c, u, v, t);
      EndingReaches(c, s, s.running[k], t);
    }
  }

  lemma FinalWaitReaches(c: Config, s: State)
    requires Inv(c, s) && s.phase == Deciding && s.next == c.jobs
    ensures Reaches(c, s, s.(phase := Done, parsed := s.parsed + s.running, exited := s.exited + ToSet(s.running)))
  {
    ActiveDistinct(c, s);
    hide Inv, Reaches;
    var u := s.(phase := Finishing(0));
    assert u.running[0..] == s.running;
    assert forall i :: 0 <= i < |u.running| ==> u.running[i] in Active(s);
    WaitReaches(c, u);
    assert AllLaunched(c, s, u) && Next(c, s, u);
    StepReaches(c, s, u, Waited(u, 0));
  }

  /** Once all processes in the pool have exited, a pass leaves it empty. */
  lemma {:induction false} PassDrains(js: seq<nat>, polls: seq<bool>)
    requires |polls| == |js| && forall k :: 0 <= k < |js| ==> polls[k]
    ensures Alive(js, polls) == [] && Ended(js, polls) == js
  {
    if js != [] {
      PassDrains(js[1..], polls[1..]);
    }
  }

  ghost predicate CanEnd(c: Config, s: State) {
    exists t :: Reaches(c, s, t) && t.phase == Done
  }

  lemma EndsBehind(c: Config, s: State, u: State)
    requires Reaches(c, s, u) && CanEnd(c, u)
    ensures CanEnd(c, s)
  {
    hide Reaches;
    var t :| Reaches(c, u, t) && t.phase == Done;
    ReachesThen(c, s, u, t);
  }

  lemma EndsAfter(c: Config, s: State, u: State)
    requires Next(c, s, u) && CanEnd(c, u)
    ensures CanEnd(c, s)
  {
    hide Next, CanEnd, Reaches;
    ReachesSelf(c, u);
    StepReaches(c, s, u, u);
    EndsBehind(c, s, u);
  }

  /** With room in the pool the sweep can start the next job; otherwise its processes can exit and be reaped. */
  lemma {:induction false} DecidingEnds(c: Config, s: State)
    requires Inv(c, s) && s.phase == Deciding && (c.maxParallel > 0 || s.next == c.jobs)
    ensures CanEnd(c, s)
    decreases c.jobs - s.next, |s.running|
  {
    if s.next == c.jobs {
      hide Inv, Reaches;
      FinalWaitReaches(c, s);
      assert s.(phase := Done, parsed := s.parsed + s.running, exited := s.exited + ToSet(s.running)).phase == Done;
    } else if |s.running| < c.maxParallel {
      var u := s.(next := s.next + 1, running := s.running + [s.next]);
      assert Launch(c, s, u) && Next(c, s, u);
      StepKeeps(c, s, u);
      hide Inv, CanEnd, Next;
      DecidingEnds(c, u);
      EndsAfter(c, s, u);
    } else {
      var polls := seq(|s.running|, _ => true);
      var u := Reaped(s, polls);
      PassDrains(s.running, polls);
      hide Inv, CanEnd, Reaches;
      PassReaches(c, s, polls);
      ReachesKeeps(c, s, u);
      DecidingEnds(c, u);
      EndsBehind(c, s, u);
    }
  }

  lemma PollingEnds(c: Config, s: State)
    requires Inv(c, s) && s.phase.Polling? && (c.maxParallel > 0 || s.next == c.jobs)
    ensures CanEnd(c, s)
  {
    var js := s.phase.pending;
    var polls := seq(|js|, _ => true);
    ActiveDistinct(c, s);
    forall i, k | 0 <= i < k < |js| ensures js[i] != js[k] {
      assert Active(s)[i] == js[i] && Active(s)[k] == js[k];
    }
    forall j | j in js ensures j < s.next {
      assert j in Active(s);
    }
    hide Inv, CanEnd, Reaches;
    PassIsPolls(c, s, polls);
    var u := Passed(s, polls);
    ReachesKeeps(c, s, u);
    var v := u.(phase := Deciding, running := u.phase.still);
    assert EndPass(u, v) && Next(c, u, v);
    StepKeeps(c, u, v);
    DecidingEnds(c, v);
    EndsAfter(c, u, v);
    EndsBehind(c, s, u);
  }

  /** A pool that holds nothing starts nothing. */
  lemma {:induction false} NothingStarts(c: Config, s: State, t: State, n: nat)
    requires c.maxParallel == 0 && Steps(c, s, t, n)
    ensures t.next == s.next
    decreases n
  {
    if n > 0 {
      var u :| Next(c, s, u) && Steps(c, u, t, n - 1);
      NothingStarts(c, u, t, n - 1);
    }
  }

  /** From a reachable state the sweep can end exactly if the pool holds a job at all, or none is left to start. */
  lemma CanAlwaysEnd(c: Config, s: State)
    requires Inv(c, s)
    ensures CanEnd(c, s) <==> c.maxParallel > 0 || s.next == c.jobs
  {
    if c.maxParallel > 0 || s.next == c.jobs {
      match s.phase
      case Deciding =>
        DecidingEnds(c, s);
      case Polling(_, _) =>
        PollingEnds(c, s);
      case Finishing(_) =>
        FinishingEnds(c, s);
      case Done =>
        ReachesSelf(c, s);
    } else if CanEnd(c, s) {
      var t :| Reaches(c, s, t) && t.phase == Done;
      ReachesKeeps(c, s, t);
      var n: nat :| Steps(c, s, t, n);
      NothingStarts(c, s, t, n);
    }
  }

  lemma FinishingEnds(c: Config, s: State)
    requires Inv(c, s) && s.phase.Finishing?
    ensures CanEnd(c, s)
  {
    hide Reaches;
    var k := s.phase.done;
    ActiveDistinct(c, s);
    forall i | k <= i < |s.running| ensures s.running[i] < s.next {
      assert Active(s)[i - k] == s.running[i] && s.running[i] in Active(s);
    }
    WaitReaches(c, s);
    assert Waited(s, k).phase == Done;
  }
}
