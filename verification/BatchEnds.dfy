/** How a call of the pool ends, from what broke on its way: a failed spawn ends it at
    once, a broken pipe only the second time. */
module BatchEnds {
  import opened Git
  import opened Claims
  import opened Sequences
  import opened BatchPool

  datatype Break = NoSpawn | BrokenPipe

  /** What a step adds to what broke in a thread's call; a new call begins anew. */
  function NextBreaks(breaks: seq<Break>, a: Action, t: nat): seq<Break> {
    if a.t != t then breaks
    else if Starts(a) then []
    else if Fault(a) then breaks + [if a.Spawn? then NoSpawn else BrokenPipe]
    else breaks
  }

  /** What broke in a run since the thread's call was made. */
  function BreaksOf(run: seq<Action>, t: nat): seq<Break> {
    if run == [] then [] else NextBreaks(BreaksOf(run[..|run| - 1], t), run[|run| - 1], t)
  }

  /** Only pipes broke, `n` times. */
  ghost predicate PipesBroke(breaks: seq<Break>, n: nat) {
    |breaks| == n && forall i | 0 <= i < n :: breaks[i] == BrokenPipe
  }

  /** An outcome and what broke before it. */
  ghost predicate EndsWith(o: Outcome, breaks: seq<Break>) {
    match o
    case AlreadyResident => |breaks| <= 1 && PipesBroke(breaks, |breaks|)
    case Lines(_) => |breaks| <= 1 && PipesBroke(breaks, |breaks|)
    case SpawnFailed => 1 <= |breaks| <= 2 && breaks[|breaks| - 1] == NoSpawn && PipesBroke(breaks[..|breaks| - 1], |breaks| - 1)
    case BrokenTwice => PipesBroke(breaks, 2)
  }

  ghost predicate BreaksFit(th: Thread, breaks: seq<Break>) {
    match th.stage
    case Outside => true
    case Claiming(_) => breaks == []
    case Failed(_) => PipesBroke(breaks, th.attempt + 1)
    case Leaving(_, o) => EndsWith(o, breaks) && (o.AlreadyResident? ==> !th.claimed)
    case Settled(o) => EndsWith(o, breaks) && (o.AlreadyResident? ==> !th.claimed)
    case _ => PipesBroke(breaks, th.attempt)
  }

  lemma {:induction false} StepFitsBreaks(s: State, a: Action, t: nat, breaks: seq<Break>)
    requires Inv(s) && Enabled(s, a) && t < |s.threads| && BreaksFit(s.threads[t], breaks)
    ensures t < |Apply(s, a).threads| && BreaksFit(Apply(s, a).threads[t], NextBreaks(breaks, a, t))
  {
    if a.t != t {
      hide Apply, Enabled, Inv, BreaksFit;
      OthersUntouched(s, a, t);
    } else {
      OwnStepFitsBreaks(s, a, breaks);
    }
  }

  lemma {:induction false} OwnStepFitsBreaks(s: State, a: Action, breaks: seq<Break>)
    requires Inv(s) && Enabled(s, a) && BreaksFit(s.threads[a.t], breaks)
    ensures a.t < |Apply(s, a).threads| && BreaksFit(Apply(s, a).threads[a.t], NextBreaks(breaks, a, a.t))
  {
    hide LeadOf, Elements, Visited, Unread, AnswersInOrder, ClaimsOk, SlotOk, Drained, WithinPipes;
    assert ThreadOk(s, a.t);
    assert (breaks + [NoSpawn])[..|breaks|] == breaks;
  }

  lemma {:induction false} RunFitsBreaks(s: State, run: seq<Action>, t: nat)
    requires Inv(s) && ValidRun(s, run) && t < |s.threads| && s.threads[t].stage.Outside?
    ensures t < |After(s, run).threads| && Inv(After(s, run)) && BreaksFit(After(s, run).threads[t], BreaksOf(run, t))
    decreases |run|
  {
    hide Apply, Enabled, Inv, BreaksFit, NextBreaks;
    if run == [] {
      OutsideFits(s.threads[t]);
    } else {
      var m := |run| - 1;
      LastStep(s, run);
      RunFitsBreaks(s, run[..m], t);
      StepFitsBreaks(After(s, run[..m]), run[m], t, BreaksOf(run[..m], t));
      StepKeepsInv(After(s, run[..m]), run[m]);
    }
  }

  lemma OutsideFits(th: Thread)
    requires th.stage.Outside?
    ensures BreaksFit(th, [])
  {
  }

  /** In any run a call that is over ended by its own faults alone: with answers, or with
      nothing to ask, after at most one broken pipe; for want of git after at most one; and
      in failure after exactly two. Only an on-demand query can find its object there. */
  lemma {:induction false} EndsByItsOwnFaults(slots: nat, threads: nat, inCap: nat, outCap: nat, run: seq<Action>, t: nat)
    requires slots > 0 && inCap > 0 && outCap > 0 && ValidRun(Init(slots, threads, inCap, outCap), run)
    requires t < threads
    ensures t < |After(Init(slots, threads, inCap, outCap), run).threads|
    ensures var th := After(Init(slots, threads, inCap, outCap), run).threads[t];
      th.stage.Settled? ==> EndsWith(th.stage.outcome, BreaksOf(run, t)) && (th.stage.outcome.AlreadyResident? ==> !th.claimed)
  {
    hide Apply, Enabled, Inv;
    ReachableInv(slots, threads, inCap, outCap, []);
    RunFitsBreaks(Init(slots, threads, inCap, outCap), run, t);
  }

  /** A broken pipe alone never ends a call: after the first one it scans for a slot again. */
  lemma {:induction false} FirstBreakIsRetried(s: State, a: Action, breaks: seq<Break>)
    requires Inv(s) && Enabled(s, a) && a.Reset? && BreaksFit(s.threads[a.t], breaks)
    ensures a.t < |Apply(s, a).threads|
    ensures if |breaks| == 1 then Apply(s, a).threads[a.t].stage.Scanning?
            else Apply(s, a).threads[a.t].stage == Settled(BrokenTwice)
  {
    hide ClaimsOk, SlotOk, Visited;
    assert ThreadOk(s, a.t);
  }

  /** A step that begins a scan. */
  predicate BeginsScan(s: State, a: Action)
    requires Enabled(s, a)
  {
    var r := Apply(s, a);
    a.t < |r.threads| && r.threads[a.t].stage.Scanning? && !s.threads[a.t].stage.Scanning?
  }

  function ScansOf(s: State, run: seq<Action>): nat
    requires ValidRun(s, run)
    decreases |run|
  {
    if run == [] then 0 else (if BeginsScan(s, run[0]) then 1 else 0) + ScansOf(Apply(s, run[0]), run[1..])
  }

  /** The scans of all threads together start at the slots in turn. */
  lemma {:induction false} ScansStartInTurn(s: State, run: seq<Action>, a: Action)
    requires s.slots != [] && ValidRun(s, run) && Enabled(After(s, run), a) && BeginsScan(After(s, run), a)
    ensures a.t < |Apply(After(s, run), a).threads|
    ensures Apply(After(s, run), a).threads[a.t].stage == Scanning((s.next + ScansOf(s, run)) % |s.slots|, 0)
    decreases |run|
  {
    hide Apply, Enabled, BeginsScan;
    if run == [] {
      OneScan(s, a);
    } else {
      OneScan(s, run[0]);
      StepKeepsThreads(s, run[0]);
      ScansStartInTurn(Apply(s, run[0]), run[1..], a);
    }
  }

  lemma OneScan(s: State, a: Action)
    requires Enabled(s, a)
    ensures Apply(s, a).next == s.next + if BeginsScan(s, a) then 1 else 0
    ensures a.t < |Apply(s, a).threads| && s.slots != []
    ensures BeginsScan(s, a) ==> Apply(s, a).threads[a.t].stage == Scanning(s.next % |s.slots|, 0)
  {
    hide LeadOf, Elements;
  }
}
