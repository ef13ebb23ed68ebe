/** How long a batch may be. A thread writes its whole batch before it reads an answer, so
    the child's two pipes must have room for what is on its way. */
module BatchRoom {
  import opened Git
  import opened Claims
  import opened Sequences
  import opened BatchPool

  ghost predicate NoFaults(run: seq<Action>) {
    forall i | 0 <= i < |run| :: !Fault(run[i])
  }

  ghost predicate AllHealthy(run: seq<Action>) {
    forall i | 0 <= i < |run| :: Healthy(run[i])
  }

  /** Some call is unfinished and nothing but a failure or a new call can happen. */
  ghost predicate Stuck(s: State) {
    && (exists t :: 0 <= t < |s.threads| && !s.threads[t].stage.Outside?)
    && forall a | Enabled(s, a) :: !Healthy(a)
  }

  /** Before its first answer a batch is one of these. */
  predicate StillAsking(st: Stage) {
    st.Scanning? || st.Blocked? || st.Holding? || st.Writing?
  }

  ghost predicate LongWaits(s: State, t: nat)
    requires t < |s.threads|
  {
    |s.threads[t].lead| > Room(s) ==> s.threads[t].claimed && StillAsking(s.threads[t].stage)
  }

  lemma {:induction false} LongStepWaits(s: State, a: Action)
    requires Inv(s) && Enabled(s, a) && !Fault(a) && LongWaits(s, a.t)
    ensures a.t < |Apply(s, a).threads| && LongWaits(Apply(s, a), a.t)
    ensures |s.threads[a.t].lead| > Room(s) ==> Apply(s, a).threads[a.t].lead == s.threads[a.t].lead
  {
    hide LeadOf, Elements, Visited, ClaimsOk, SlotOk, AnswersInOrder, OutcomeOk;
    assert ThreadOk(s, a.t);
    if a.Flush? {
      var c := ChildOf(s, s.threads[a.t].stage.slot);
      assert |c.asked[c.heard..]| == |s.threads[a.t].lead|;
    }
  }

  lemma {:induction false} LongRunWaits(s: State, run: seq<Action>, t: nat)
    requires Inv(s) && ValidRun(s, run) && NoFaults(run) && t < |s.threads| && LongWaits(s, t)
    ensures t < |After(s, run).threads| && LongWaits(After(s, run), t)
    ensures |s.threads[t].lead| > Room(s) ==> After(s, run).threads[t].lead == s.threads[t].lead
    decreases |run|
  {
    hide Apply, Enabled, Inv, Fault, StillAsking;
    if run != [] {
      StepKeepsInv(s, run[0]);
      StepKeepsThreads(s, run[0]);
      assert !Fault(run[0]);
      if run[0].t == t {
        LongStepWaits(s, run[0]);
      } else {
        OthersUntouched(s, run[0], t);
      }
      forall i | 0 <= i < |run[1..]| ensures !Fault(run[1..][i]) {
        assert run[1..][i] == run[i + 1];
      }
      LongRunWaits(Apply(s, run[0]), run[1..], t);
    }
  }

  /** As long as nothing breaks, a batch with more than there is room for never gets as far
      as its first answer, whatever the schedule, and its OIDs stay claimed. */
  lemma {:induction false} LongBatchNeverReturns(
      slots: nat, threads: nat, inCap: nat, outCap: nat, run: seq<Action>, t: nat)
    requires slots > 0 && inCap > 0 && outCap > 0 && ValidRun(Init(slots, threads, inCap, outCap), run)
    requires NoFaults(run) && t < |After(Init(slots, threads, inCap, outCap), run).threads|
    requires |After(Init(slots, threads, inCap, outCap), run).threads[t].lead| > inCap + 1 + outCap
    ensures var s := After(Init(slots, threads, inCap, outCap), run);
      StillAsking(s.threads[t].stage) && Elements(s.threads[t].lead) <= s.inflight
  {
    hide Apply, Enabled, Inv, Fault, StillAsking, SlotOk, ThreadOk;
    var s := Init(slots, threads, inCap, outCap);
    ReachableInv(slots, threads, inCap, outCap, []);
    RunKeepsThreads(s, run);
    LongRunWaits(s, run, t);
    RunKeepsInv(s, run);
    ClaimIsInFlight(After(s, run), t);
  }

  lemma ClaimIsInFlight(s: State, t: nat)
    requires Inv(s) && t < |s.threads| && s.threads[t].claimed
    ensures Elements(s.threads[t].lead) <= s.inflight
  {
    hide Elements;
    assert Claimed(s.threads[t]) <= s.inflight;
  }

  ghost function TotalAhead(s: State, n: nat): nat
    requires n <= |s.threads|
  {
    if n == 0 then 0 else TotalAhead(s, n - 1) + Ahead(s, s.threads[n - 1])
  }

  lemma {:induction false} TotalDescends(s: State, a: Action, n: nat)
    requires Inv(s) && Enabled(s, a) && !Starts(a) && n <= |s.threads|
    ensures n <= |Apply(s, a).threads|
    ensures TotalAhead(Apply(s, a), n) + (if a.t < n then 1 else 0) <= TotalAhead(s, n)
  {
    hide Apply, Enabled, Inv, Ahead, Starts;
    StepKeepsThreads(s, a);
    if n > 0 {
      TotalDescends(s, a, n - 1);
      EveryStepIsProgress(s, a, n - 1);
    }
  }

  /** A run in which nothing breaks, up to where nothing more can happen. */
  ghost predicate QuietRun(s: State, run: seq<Action>) {
    && ValidRun(s, run) && AllHealthy(run)
    && forall a | Enabled(After(s, run), a) :: !Healthy(a)
  }

  lemma {:induction false} QuietRunExists(s: State)
    requires Inv(s)
    ensures exists run :: QuietRun(s, run)
    decreases TotalAhead(s, |s.threads|)
  {
    hide Apply, Inv, Enabled, Healthy, TotalAhead;
    if a :| Enabled(s, a) && Healthy(a) {
      StepKeepsInv(s, a);
      StepKeepsThreads(s, a);
      HealthyStarts(a);
      TotalDescends(s, a, |s.threads|);
      QuietRunExists(Apply(s, a));
      var rest :| QuietRun(Apply(s, a), rest);
      assert ([a] + rest)[1..] == rest;
      assert QuietRun(s, [a] + rest);
    } else {
      assert QuietRun(s, []);
    }
  }

  lemma HealthyStarts(a: Action)
    ensures Healthy(a) ==> !Starts(a) && !Fault(a)
  {
  }

  /** One prefetch batch and whatever follows from it without a failure. */
  ghost predicate OneBatch(run: seq<Action>, oids: seq<Oid>) {
    run != [] && run[0] == Prefetch(0, oids) && AllHealthy(run[1..])
  }

  /** What every lead set and every batch about to be claimed is bounded by. */
  ghost predicate BatchesFit(s: State, t: nat)
    requires t < |s.threads|
  {
    && |s.threads[t].lead| <= Room(s)
    && (s.threads[t].stage.Claiming? ==> |Elements(s.threads[t].stage.oids)| <= Room(s))
  }

  lemma {:induction false} LeadCount(oids: seq<Oid>, taken: set<Oid>)
    ensures |LeadOf(oids, taken)| == |Elements(oids) - taken| <= |Elements(oids)|
  {
    hide LeadOf;
    LeadIsWhatIsFree(oids, taken);
    DistinctCount(LeadOf(oids, taken));
    assert Elements(oids) == (Elements(oids) - taken) + (Elements(oids) * taken);
  }

  lemma {:induction false} FitStep(s: State, a: Action, t: nat)
    requires Inv(s) && Enabled(s, a) && t < |s.threads| && BatchesFit(s, t)
    requires a.Prefetch? ==> |Elements(a.oids)| <= Room(s)
    ensures t < |Apply(s, a).threads| && BatchesFit(Apply(s, a), t)
  {
    hide LeadOf, Elements, Inv;
    if a.t != t {
      hide Apply, Enabled;
      OthersUntouched(s, a, t);
    } else if a.Claim? {
      LeadCount(s.threads[t].stage.oids, s.inflight);
    }
  }

  lemma {:induction false} FitRun(s: State, run: seq<Action>, t: nat)
    requires Inv(s) && ValidRun(s, run) && t < |s.threads| && BatchesFit(s, t)
    requires forall i | 0 <= i < |run| && run[i].Prefetch? :: |Elements(run[i].oids)| <= Room(s)
    ensures t < |After(s, run).threads| && BatchesFit(After(s, run), t)
    decreases |run|
  {
    hide Apply, Enabled, Inv, BatchesFit, Elements;
    if run != [] {
      StepKeepsInv(s, run[0]);
      StepKeepsThreads(s, run[0]);
      FitStep(s, run[0], t);
      forall i | 0 <= i < |run[1..]| && run[1..][i].Prefetch? ensures |Elements(run[1..][i].oids)| <= Room(s) {
        assert run[1..][i] == run[i + 1];
      }
      FitRun(Apply(s, run[0]), run[1..], t);
    }
  }

  /** If every batch has room, no interleaving of any calls ever gets stuck. */
  lemma {:induction false} FittingBatchesNeverStick(slots: nat, threads: nat, inCap: nat, outCap: nat, run: seq<Action>)
    requires slots > 0 && inCap > 0 && outCap > 0 && ValidRun(Init(slots, threads, inCap, outCap), run)
    requires forall i | 0 <= i < |run| && run[i].Prefetch? :: |Elements(run[i].oids)| <= inCap + 1 + outCap
    ensures !Stuck(After(Init(slots, threads, inCap, outCap), run))
  {
    hide Apply, Enabled, Inv, Healthy, Elements;
    var s := Init(slots, threads, inCap, outCap);
    var r := After(s, run);
    ReachableInv(slots, threads, inCap, outCap, []);
    RunKeepsInv(s, run);
    RunKeepsThreads(s, run);
    forall t | 0 <= t < |r.threads| ensures |r.threads[t].lead| <= Room(r) {
      FitRun(s, run, t);
    }
    if t :| 0 <= t < |r.threads| && !r.threads[t].stage.Outside? {
      NeverStuck(r, t);
    }
  }

  /** A batch with more than there is room for gets stuck even when it is alone. */
  lemma {:induction false} LongBatchSticks(slots: nat, threads: nat, inCap: nat, outCap: nat, oids: seq<Oid>)
    requires slots > 0 && threads > 0 && inCap > 0 && outCap > 0
    requires |Elements(oids)| > inCap + 1 + outCap
    ensures exists run :: OneBatch(run, oids) && ValidRun(Init(slots, threads, inCap, outCap), run)
                          && Stuck(After(Init(slots, threads, inCap, outCap), run))
  {
    hide LeadOf, Elements, Inv;
    var s := Init(slots, threads, inCap, outCap);
    ReachableInv(slots, threads, inCap, outCap, []);
    var calls := Prefetch(0, oids);
    var called := Apply(s, calls);
    var claimed := Apply(called, Claim(0));
    LeadCount(oids, {});
    assert Elements(oids) - {} == Elements(oids);
    StepKeepsInv(s, calls);
    StepKeepsInv(called, Claim(0));
    QuietRunExists(claimed);
    var rest :| QuietRun(claimed, rest);
    StuckWithLong(claimed, rest);
    OneMore(called, Claim(0), rest);
    var run := [calls] + ([Claim(0)] + rest);
    OneMore(s, calls, [Claim(0)] + rest);
    assert run[1..] == [Claim(0)] + rest;
    assert OneBatch(run, oids);
  }

  lemma {:induction false} StuckWithLong(s: State, run: seq<Action>)
    requires Inv(s) && QuietRun(s, run)
    requires |s.threads| > 0 && |s.threads[0].lead| > Room(s) && LongWaits(s, 0)
    ensures Stuck(After(s, run))
  {
    hide Apply, Inv, Enabled, Healthy;
    forall i | 0 <= i < |run| ensures !Fault(run[i]) {
      HealthyStarts(run[i]);
    }
    LongRunWaits(s, run, 0);
    RunKeepsThreads(s, run);
  }

  /** So a batch can get stuck by itself if and only if it names more objects than a
      child's two pipes and the child have room for. */
  lemma {:induction false} BatchSticksIffTooLong(slots: nat, threads: nat, inCap: nat, outCap: nat, oids: seq<Oid>)
    requires slots > 0 && threads > 0 && inCap > 0 && outCap > 0
    ensures (exists run :: OneBatch(run, oids) && ValidRun(Init(slots, threads, inCap, outCap), run)
                           && Stuck(After(Init(slots, threads, inCap, outCap), run)))
      <==> |Elements(oids)| > inCap + 1 + outCap
  {
    hide Apply, Enabled, Inv, Stuck, Elements, After, ValidRun;
    var s := Init(slots, threads, inCap, outCap);
    if |Elements(oids)| > inCap + 1 + outCap {
      LongBatchSticks(slots, threads, inCap, outCap, oids);
    } else {
      forall run: seq<Action> | OneBatch(run, oids) && ValidRun(s, run) ensures !Stuck(After(s, run)) {
        forall i | 0 <= i < |run| && run[i].Prefetch? ensures |Elements(run[i].oids)| <= inCap + 1 + outCap {
          if i > 0 {
            assert run[i] == run[1..][i - 1];
            HealthyStarts(run[i]);
          }
        }
        FittingBatchesNeverStick(slots, threads, inCap, outCap, run);
      }
    }
  }
}
