/** `fetch_object` over the coalescer: the leader's work is `raw_fetch`, spelled out
    step by step against the shared object database. */
module OnDemandFetch {
  import opened Git
  import opened StatusLine
  import opened Wire
  import opened GitCli
  import C = Coalesce

  type Outcome = Result<(), string>

  /** What a thread is doing outside the coalescer's own locks. */
  datatype Work =
    | NoWork
    | FastOk(oid: Oid)                 // returned from the contains() fast path
    | Attempting(n: nat)               // about to take a pool slot and re-check contains()
    | Asking(n: nat, beaten: bool)     // saw the object absent, about to query; `beaten` records
                                       // whether a prefetch landed the object since that look
    | Asked(n: nat)                    // query written, response not read yet
    | Classifying(line: string)

  datatype State = State(co: C.State<Oid, ()>, work: seq<Work>, odb: set<Oid>)

  datatype Action =
    | Start(t: nat, oid: Oid)
    | Enter(t: nat)
    | Acquire(t: nat)
    | SpawnFails(t: nat, msg: string)
    | Ask(t: nat)
    | OwnLands(t: nat)                          // the queried object reaches the odb
    | Reply(t: nat, line: Result<string, string>)   // an error: the pipe broke
    | Classify(t: nat)
    | Publish(t: nat)
    | Remove(t: nat)
    | Check(t: nat)
    | SpuriousWake(t: nat)
    | PrefetchLands(oids: set<Oid>)             // any batch fetched by someone else

  predicate Enabled(s: State, a: Action) {
    |s.work| == |s.co.threads| && (a.PrefetchLands? || (a.t < |s.work| &&
    match a
    case Start(t, oid) => C.Quiet(s.co.threads[t])
    case Enter(t) => C.Enabled(s.co, C.Enter(t))
    case Acquire(t) => s.work[t].Attempting? && Running(s, t)
    case SpawnFails(t, _) => s.work[t].Asking? && Running(s, t)
    case Ask(t) => s.work[t].Asking? && Running(s, t)
    case OwnLands(t) => s.work[t].Asked? && Running(s, t)
    case Reply(t, _) => s.work[t].Asked? && Running(s, t)
    case Classify(t) => s.work[t].Classifying? && Running(s, t)
    case Publish(t) => C.Enabled(s.co, C.Publish(t))
    case Remove(t) => C.Enabled(s.co, C.Remove(t))
    case Check(t) => C.Enabled(s.co, C.Check(t))
    case SpuriousWake(t) => C.Enabled(s.co, C.SpuriousWake(t))
    case PrefetchLands(_) => true))
  }

  predicate Running(s: State, t: nat) {
    t < |s.co.threads| && s.co.threads[t].InCall? && s.co.threads[t].stage.Running?
  }

  function Finished(s: State, t: nat, r: Outcome): State
    requires Running(s, t) && t < |s.work|
  {
    s.(co := C.Apply(s.co, C.Finish(t, r)), work := s.work[t := NoWork])
  }

  /** What a try that ends the work finishes it with, as text. */
  function Classified(s: State, t: nat): Outcome
    requires Running(s, t) && t < |s.work| && s.work[t].Classifying?
  {
    var key := s.co.threads[t].key;
    AsText(Verdict(key, s.work[t].line, key in s.odb))
  }

  function SpawnFailed(oid: Oid, msg: string): Outcome {
    AsText(Err(FetchBackend(oid, SPAWN + msg)))
  }

  function PipeBroke(oid: Oid, msg: string): Outcome {
    AsText(Err(Transport(oid, BROKEN_QUERY + msg)))
  }

  function Apply(s: State, a: Action): (r: State)
    requires Enabled(s, a)
  {
    match a
    case Start(t, oid) =>
      if oid in s.odb then s.(work := s.work[t := FastOk(oid)])
      else s.(co := C.Apply(s.co, C.Call(t, oid)), work := s.work[t := NoWork])
    case Enter(t) =>
      var co := C.Apply(s.co, C.Enter(t));
      s.(co := co, work := if co.threads[t].stage.Running? then s.work[t := Attempting(0)] else s.work)
    case Acquire(t) =>
      if s.co.threads[t].key in s.odb then Finished(s, t, Ok(()))
      else s.(work := s.work[t := Asking(s.work[t].n, false)])
    case SpawnFails(t, msg) =>
      Finished(s, t, SpawnFailed(s.co.threads[t].key, msg))
    case Ask(t) =>
      s.(work := s.work[t := Asked(s.work[t].n)])
    case OwnLands(t) =>
      s.(odb := s.odb + {s.co.threads[t].key})
    case Reply(t, Ok(line)) =>
      s.(work := s.work[t := Classifying(line)])
    case Reply(t, Err(msg)) =>
      if s.work[t].n == 0 then s.(work := s.work[t := Attempting(1)])
      else Finished(s, t, PipeBroke(s.co.threads[t].key, msg))
    case Classify(t) =>
      Finished(s, t, Classified(s, t))
    case Publish(t) => s.(co := C.Apply(s.co, C.Publish(t)))
    case Remove(t) => s.(co := C.Apply(s.co, C.Remove(t)))
    case Check(t) => s.(co := C.Apply(s.co, C.Check(t)))
    case SpuriousWake(t) => s.(co := C.Apply(s.co, C.SpuriousWake(t)))
    case PrefetchLands(oids) =>
      s.(odb := s.odb + oids,
         work := seq(|s.work|, t requires 0 <= t < |s.work| =>
           if s.work[t].Asking? && Running(s, t) && s.co.threads[t].key in oids
           then s.work[t].(beaten := true) else s.work[t]))
  }

  function Init(n: nat, odb: set<Oid>): State {
    State(C.Init(n), seq(n, _ => NoWork), odb)
  }

  predicate ValidRun(s: State, run: seq<Action>)
    decreases |run|
  {
    run == [] || (Enabled(s, run[0]) && ValidRun(Apply(s, run[0]), run[1..]))
  }

  function After(s: State, run: seq<Action>): State
    requires ValidRun(s, run)
    decreases |run|
  {
    if run == [] then s else After(Apply(s, run[0]), run[1..])
  }

  /** The step of the coalescer hidden in a step here, if there is one. */
  function Hidden(s: State, a: Action): Option<C.Action<Oid, ()>>
    requires Enabled(s, a)
  {
    match a
    case Start(t, oid) => if oid in s.odb then None else Some(C.Call(t, oid))
    case Enter(t) => Some(C.Enter(t))
    case Publish(t) => Some(C.Publish(t))
    case Remove(t) => Some(C.Remove(t))
    case Check(t) => Some(C.Check(t))
    case SpuriousWake(t) => Some(C.SpuriousWake(t))
    case Acquire(t) => if s.co.threads[t].key in s.odb then Some(C.Finish(t, Ok(()))) else None
    case SpawnFails(t, msg) => Some(C.Finish(t, SpawnFailed(s.co.threads[t].key, msg)))
    case Reply(t, Err(msg)) => if s.work[t].n == 0 then None else Some(C.Finish(t, PipeBroke(s.co.threads[t].key, msg)))
    case Classify(t) => Some(C.Finish(t, Classified(s, t)))
    case _ => None
  }

  /** Every step here is one step of the coalescer or leaves it alone, so the
      single-flight results hold of the whole fetcher. */
  lemma {:induction false} StepRefinesCoalescer(s: State, a: Action)
    requires Enabled(s, a)
    ensures match Hidden(s, a)
      case None => Apply(s, a).co == s.co
      case Some(c) => C.Enabled(s.co, c) && Apply(s, a).co == C.Apply(s.co, c)
  {
  }

  // ---------------------------------------------------------------- invariant

  ghost predicate WorkOk(s: State, t: nat)
    requires t < |s.work| == |s.co.threads|
  {
    var th := s.co.threads[t];
    match s.work[t]
    case NoWork => !Running(s, t)
    case FastOk(oid) => C.Quiet(th) && oid in s.odb
    case Attempting(_) => Running(s, t)
    case Asking(_, beaten) => Running(s, t) && (th.key in s.odb <==> beaten)
    case Asked(_) => Running(s, t)
    case Classifying(_) => Running(s, t)
  }

  /** A successful outcome, wherever it is held, is backed by the object database. */
  ghost predicate OkIsResident(s: State, t: nat)
    requires t < |s.co.threads|
  {
    var th := s.co.threads[t];
    (th.InCall? && (th.stage.Publishing? || th.stage.Removing? || th.stage.Returned?) && th.stage.result.Ok?) ==>
      th.key in s.odb
  }

  ghost predicate SlotIsResident(s: State, i: nat)
    requires i < |s.co.slots|
  {
    s.co.slots[i].state.Done? && s.co.slots[i].state.result.Ok? ==> s.co.slots[i].key in s.odb
  }

  ghost predicate Inv(s: State) {
    && C.Inv(s.co)
    && |s.work| == |s.co.threads|
    && (forall t | 0 <= t < |s.work| :: WorkOk(s, t))
    && (forall t | 0 <= t < |s.work| :: OkIsResident(s, t))
    && (forall i | 0 <= i < |s.co.slots| :: SlotIsResident(s, i))
  }

  lemma {:induction false} StepKeepsWork(s: State, a: Action, t: nat)
    requires Inv(s) && Enabled(s, a)
    requires t < |s.work|
    ensures |Apply(s, a).work| == |Apply(s, a).co.threads| == |s.work| && WorkOk(Apply(s, a), t)
  {
    hide OkIsResident, SlotIsResident, C.MapOk;
    StepKeepsLengths(s, a);
    assert WorkOk(s, t);
    if !a.PrefetchLands? && a.t != t {
      OthersKeepWork(s, a, t);
    }
  }

  lemma {:induction false} OthersKeepWork(s: State, a: Action, t: nat)
    requires Inv(s) && Enabled(s, a)
    requires t < |s.work| && !a.PrefetchLands? && a.t != t
    ensures |Apply(s, a).work| == |Apply(s, a).co.threads| == |s.work| && WorkOk(Apply(s, a), t)
  {
    hide OkIsResident, SlotIsResident, C.MapOk;
    StepKeepsLengths(s, a);
    assert WorkOk(s, t);
    OneRunner(s, t, a.t);
  }

  /** Two threads never run the work for one key. */
  lemma {:induction false} OneRunner(s: State, t: nat, u: nat)
    requires C.Inv(s.co) && t < |s.co.threads| && u < |s.co.threads|
    ensures Running(s, t) && Running(s, u) && s.co.threads[t].key == s.co.threads[u].key ==> t == u
  {
    assert C.ThreadOk(s.co, t) && C.ThreadOk(s.co, u);
    if Running(s, t) && Running(s, u) {
      assert C.SlotOk(s.co, s.co.threads[t].stage.slot) && C.SlotOk(s.co, s.co.threads[u].stage.slot);
    }
  }

  lemma {:induction false} StepKeepsResidency(s: State, a: Action, t: nat)
    requires Inv(s) && Enabled(s, a)
    requires t < |s.work|
    ensures t < |Apply(s, a).co.threads| && OkIsResident(Apply(s, a), t)
  {
    hide C.MapOk, C.SlotOk;
    StepKeepsLengths(s, a);
    assert WorkOk(s, t) && OkIsResident(s, t);
    if a.Check? {
      assert C.ThreadOk(s.co, a.t);
      assert SlotIsResident(s, s.co.threads[a.t].stage.slot);
    }
  }

  lemma {:induction false} StepKeepsSlots(s: State, a: Action, i: nat)
    requires Inv(s) && Enabled(s, a)
    requires i < |Apply(s, a).co.slots|
    ensures SlotIsResident(Apply(s, a), i)
  {
    if i < |s.co.slots| {
      assert SlotIsResident(s, i);
    }
    if a.Publish? {
      assert C.ThreadOk(s.co, a.t) && OkIsResident(s, a.t);
    }
  }

  lemma {:induction false} StepKeepsInv(s: State, a: Action)
    requires Inv(s) && Enabled(s, a)
    ensures Inv(Apply(s, a))
    ensures s.odb <= Apply(s, a).odb
  {
    var n := Apply(s, a);
    StepRefinesCoalescer(s, a);
    if Hidden(s, a).Some? {
      C.StepKeepsInv(s.co, Hidden(s, a).value);
    }
    StepKeepsLengths(s, a);
    hide Apply, Enabled, WorkOk, OkIsResident, SlotIsResident, Hidden;
    forall t | 0 <= t < |n.work| ensures WorkOk(n, t) && OkIsResident(n, t) {
      StepKeepsWork(s, a, t);
      StepKeepsResidency(s, a, t);
    }
    forall i | 0 <= i < |n.co.slots| ensures SlotIsResident(n, i) {
      StepKeepsSlots(s, a, i);
    }
  }

  lemma StepKeepsLengths(s: State, a: Action)
    requires Enabled(s, a)
    ensures |Apply(s, a).work| == |Apply(s, a).co.threads| == |s.work|
    ensures s.odb <= Apply(s, a).odb
  {
  }

  lemma {:induction false} RunKeepsInv(s: State, run: seq<Action>)
    requires Inv(s) && ValidRun(s, run)
    ensures Inv(After(s, run))
    ensures s.odb <= After(s, run).odb
    decreases |run|
  {
    if run != [] {
      StepKeepsInv(s, run[0]);
      RunKeepsInv(Apply(s, run[0]), run[1..]);
    }
  }

  // ------------------------------------------------------------------ results

  ghost predicate SaysOk(s: State, t: nat, oid: Oid) {
    && t < |s.work| == |s.co.threads|
    && (s.work[t] == FastOk(oid) || (s.co.threads[t].InCall? && s.co.threads[t].key == oid
        && s.co.threads[t].stage.Returned? && s.co.threads[t].stage.result.Ok?))
  }

  /** `fetch_object` returning Ok, to a leader, a follower or a fast-path caller,
      means the object is resident then and after every later step, prefetches and
      other callers included. */
  lemma {:induction false} OkMeansResidentForever(
      n: nat, odb: set<Oid>, run: seq<Action>, later: seq<Action>, t: nat, oid: Oid)
    requires ValidRun(Init(n, odb), run)
    requires SaysOk(After(Init(n, odb), run), t, oid)
    requires ValidRun(After(Init(n, odb), run), later)
    ensures oid in After(After(Init(n, odb), run), later).odb
  {
    RunKeepsInv(Init(n, odb), run);
    var s := After(Init(n, odb), run);
    assert WorkOk(s, t) && OkIsResident(s, t);
    RunKeepsInv(s, later);
  }

  /** What happened after thread `t` last took a slot and looked for its object. */
  function SinceLastLook(run: seq<Action>, t: nat): seq<Action> {
    if Acquire(t) !in run then run
    else if run[0] == Acquire(t) && Acquire(t) !in run[1..] then run[1..]
    else SinceLastLook(run[1..], t)
  }

  /** Some prefetch in these steps landed the object. */
  ghost predicate PrefetchLanded(steps: seq<Action>, oid: Oid) {
    exists a | a in steps :: a.PrefetchLands? && oid in a.oids
  }

  lemma PrefetchLandedSplit(first: Action, rest: seq<Action>, oid: Oid)
    ensures PrefetchLanded([first] + rest, oid) <==> (first.PrefetchLands? && oid in first.oids) || PrefetchLanded(rest, oid)
  {
    assert forall a :: a in [first] + rest <==> a == first || a in rest;
    assert first in [first] + rest;
  }

  /** The mark a pending query carries is what the run did since the thread's last look. */
  lemma {:induction false} MarkRecordsTheRun(s: State, run: seq<Action>, t: nat)
    requires Inv(s) && ValidRun(s, run)
    requires t < |After(s, run).work| && After(s, run).work[t].Asking?
    ensures var e := After(s, run);
      && t < |e.co.threads| && e.co.threads[t].InCall?
      && var key := e.co.threads[t].key;
         if Acquire(t) in run then e.work[t].beaten <==> PrefetchLanded(SinceLastLook(run, t), key)
         else
           && t < |s.work| && s.work[t].Asking? && s.co.threads[t].InCall? && s.co.threads[t].key == key
           && (e.work[t].beaten <==> s.work[t].beaten || PrefetchLanded(run, key))
    decreases |run|
  {
    RunKeepsInv(s, run);
    assert WorkOk(After(s, run), t);
    if run != [] {
      var next := Apply(s, run[0]);
      StepKeepsInv(s, run[0]);
      MarkRecordsTheRun(next, run[1..], t);
      assert run == [run[0]] + run[1..];
      var key := After(s, run).co.threads[t].key;
      PrefetchLandedSplit(run[0], run[1..], key);
      if Acquire(t) !in run[1..] {
        assert WorkOk(next, t);
        StepKeepsMark(s, run[0], t);
      }
    }
  }

  /** A pending query was just started by its look, or was pending before and at most a
      prefetch touched its mark. */
  lemma {:induction false} StepKeepsMark(s: State, a: Action, t: nat)
    requires Inv(s) && Enabled(s, a)
    requires t < |Apply(s, a).work| && Apply(s, a).work[t].Asking? && t < |Apply(s, a).co.threads|
    requires Running(Apply(s, a), t)
    ensures t < |s.work| && t < |s.co.threads|
    ensures a == Acquire(t) ==> !Apply(s, a).work[t].beaten
    ensures a != Acquire(t) ==>
      && s.work[t].Asking? && Running(s, t) && s.co.threads[t].key == Apply(s, a).co.threads[t].key
      && (Apply(s, a).work[t].beaten <==>
            s.work[t].beaten || (a.PrefetchLands? && s.co.threads[t].key in a.oids))
  {
    hide C.Inv, OkIsResident, SlotIsResident, Verdict, Display;
    StepKeepsLengths(s, a);
    assert WorkOk(s, t);
  }

  /** A query goes out for an object that is already resident exactly when some prefetch
      landed that object after this thread last looked for it. */
  lemma {:induction false} RedundantQueryIff(n: nat, odb: set<Oid>, run: seq<Action>, t: nat)
    requires ValidRun(Init(n, odb), run)
    requires Enabled(After(Init(n, odb), run), Ask(t))
    ensures var s := After(Init(n, odb), run);
      && Acquire(t) in run
      && (s.co.threads[t].key in s.odb <==> PrefetchLanded(SinceLastLook(run, t), s.co.threads[t].key))
  {
    RunKeepsInv(Init(n, odb), run);
    assert WorkOk(After(Init(n, odb), run), t);
    MarkRecordsTheRun(Init(n, odb), run, t);
  }

  lemma {:induction false} SinceIsPartOfRun(run: seq<Action>, t: nat)
    ensures forall a | a in SinceLastLook(run, t) :: a in run
  {
    if Acquire(t) in run && !(run[0] == Acquire(t) && Acquire(t) !in run[1..]) {
      SinceIsPartOfRun(run[1..], t);
    }
  }

  /** With on-demand fetches only, no interleaving ever queries for an object that is
      already in the store, also when a caller that failed the fast-path check becomes
      leader after an earlier leader finished. */
  lemma {:induction false} NoQueryForResidentObject(n: nat, odb: set<Oid>, run: seq<Action>, t: nat)
    requires ValidRun(Init(n, odb), run)
    requires forall a | a in run :: !a.PrefetchLands?
    requires Enabled(After(Init(n, odb), run), Ask(t))
    ensures After(Init(n, odb), run).co.threads[t].key !in After(Init(n, odb), run).odb
  {
    RedundantQueryIff(n, odb, run, t);
    SinceIsPartOfRun(run, t);
  }

  // ------------------------------------------------------ a fetch and its tries

  /** What a step adds to the tries of a thread's work; entering begins anew. */
  function NextTries(tries: seq<Try>, a: Action, t: nat): seq<Try> {
    if a.PrefetchLands? || a.t != t then tries else
    match a
    case Enter(_) => []
    case SpawnFails(_, msg) => tries + [SpawnError(msg)]
    case Reply(_, Ok(line)) => tries + [ResponseLines([line])]
    case Reply(_, Err(msg)) => tries + [PipeError(msg)]
    case _ => tries
  }

  /** The tries a thread made in a run since it last entered the coalescer. */
  function TriesOf(run: seq<Action>, t: nat): seq<Try> {
    if run == [] then [] else NextTries(TriesOf(run[..|run| - 1], t), run[|run| - 1], t)
  }

  ghost predicate OnlyBroken(tries: seq<Try>, n: nat) {
    |tries| == n && n <= 1 && forall k | 0 <= k < n :: tries[k].PipeError?
  }

  /** What the leader is about to share, and why. */
  ghost predicate ComesOf(oid: Oid, tries: seq<Try>, odb: set<Oid>, result: Outcome) {
    exists raw :: RawResult(oid, tries, odb, raw) && result == AsText(raw)
  }

  /** The tries fit what the thread is doing, and its result once it has one. */
  ghost predicate TriesFit(s: State, t: nat, tries: seq<Try>)
    requires t < |s.work| == |s.co.threads|
  {
    var th := s.co.threads[t];
    && (match s.work[t]
        case Attempting(n) => OnlyBroken(tries, n)
        case Asking(n, _) => OnlyBroken(tries, n)
        case Asked(n) => OnlyBroken(tries, n)
        case Classifying(line) =>
          tries != [] && tries[|tries| - 1] == ResponseLines([line]) && OnlyBroken(tries[..|tries| - 1], |tries| - 1)
        case _ => true)
    && (th.InCall? && (th.stage.Publishing? || th.stage.Removing?) ==> ComesOf(th.key, tries, s.odb, th.stage.result))
  }

  lemma ClassifiedComesOf(oid: Oid, tries: seq<Try>, line: string, odb: set<Oid>)
    requires tries != [] && tries[|tries| - 1] == ResponseLines([line]) && OnlyBroken(tries[..|tries| - 1], |tries| - 1)
    ensures ComesOf(oid, tries, odb, AsText(Verdict(oid, line, oid in odb)))
  {
    hide ParseLine, AsText;
    assert |tries| == 2 ==> tries[..1][0] == tries[0];
    assert RawResult(oid, tries, odb, Verdict(oid, line, oid in odb));
  }

  lemma OthersComeOf(oid: Oid, tries: seq<Try>, odb: set<Oid>, msg: string)
    requires |tries| <= 1 && OnlyBroken(tries, |tries|)
    ensures oid in odb ==> ComesOf(oid, tries, odb, Ok(()))
    ensures ComesOf(oid, tries + [SpawnError(msg)], odb, SpawnFailed(oid, msg))
    ensures |tries| == 1 ==> ComesOf(oid, tries + [PipeError(msg)], odb, PipeBroke(oid, msg))
  {
    hide AsText;
    OkAsText();
    assert oid in odb ==> RawResult(oid, tries, odb, Ok(()));
    assert RawResult(oid, tries + [SpawnError(msg)], odb, Err(FetchBackend(oid, SPAWN + msg)));
    assert |tries| == 1 ==> RawResult(oid, tries + [PipeError(msg)], odb, Err(Transport(oid, BROKEN_QUERY + msg)));
  }

  lemma OkAsText()
    ensures AsText(Ok(())) == Ok(())
  {
  }

  lemma ComesOfStays(oid: Oid, tries: seq<Try>, odb: set<Oid>, later: set<Oid>, result: Outcome)
    requires odb <= later && ComesOf(oid, tries, odb, result)
    ensures ComesOf(oid, tries, later, result)
  {
    hide AsText, GitCli.Classified;
    var raw :| RawResult(oid, tries, odb, raw) && result == AsText(raw);
    assert RawResult(oid, tries, later, raw);
  }

  lemma {:induction false} StepFitsTries(s: State, a: Action, t: nat, tries: seq<Try>)
    requires Inv(s) && Enabled(s, a) && t < |s.work| && TriesFit(s, t, tries)
    ensures var r := Apply(s, a);
      t < |r.work| == |r.co.threads| && TriesFit(r, t, NextTries(tries, a, t))
  {
    hide Apply, Enabled, TriesFit, NextTries;
    StepKeepsLengths(s, a);
    StepKeepsInv(s, a);
    if a.PrefetchLands? || a.t != t {
      OtherStepFits(s, a, t, tries);
    } else if Running(s, t) {
      WorkStepFits(s, a, t, tries);
    } else {
      CoalescerStepFits(s, a, t, tries);
    }
  }

  lemma {:induction false} OtherStepFits(s: State, a: Action, t: nat, tries: seq<Try>)
    requires Inv(s) && Enabled(s, a) && t < |s.work| && TriesFit(s, t, tries)
    requires a.PrefetchLands? || a.t != t
    requires s.odb <= Apply(s, a).odb
    ensures var r := Apply(s, a);
      t < |r.work| == |r.co.threads| && TriesFit(r, t, NextTries(tries, a, t))
  {
    hide ComesOf, AsText, Verdict, SpawnFailed, PipeBroke, Inv, OnlyBroken;
    var r := Apply(s, a);
    var th := s.co.threads[t];
    if th.InCall? && (th.stage.Publishing? || th.stage.Removing?) {
      ComesOfStays(th.key, tries, s.odb, r.odb, th.stage.result);
    }
  }

  lemma FinishedFits(s: State, t: nat, tries: seq<Try>, r: Outcome)
    requires Running(s, t) && t < |s.work| == |s.co.threads|
    requires ComesOf(s.co.threads[t].key, tries, s.odb, r)
    ensures var f := Finished(s, t, r);
      t < |f.work| == |f.co.threads| && TriesFit(f, t, tries)
  {
    hide ComesOf, OnlyBroken;
  }

  lemma {:induction false} WorkStepFits(s: State, a: Action, t: nat, tries: seq<Try>)
    requires Inv(s) && Enabled(s, a) && t < |s.work| && TriesFit(s, t, tries)
    requires !a.PrefetchLands? && a.t == t && Running(s, t)
    ensures var r := Apply(s, a);
      t < |r.work| == |r.co.threads| && TriesFit(r, t, NextTries(tries, a, t))
  {
    hide ComesOf, AsText, Verdict, SpawnFailed, PipeBroke, Finished, WorkOk, OkIsResident, SlotIsResident, C.Inv, C.Apply;
    var th := s.co.threads[t];
    RunningSteps(s, a, t);
    match a {
      case Acquire(_) =>
        OthersComeOf(th.key, tries, s.odb, "");
        if th.key in s.odb {
          FinishedFits(s, t, tries, Ok(()));
        }
      case SpawnFails(_, msg) =>
        OthersComeOf(th.key, tries, s.odb, msg);
        FinishedFits(s, t, tries + [SpawnError(msg)], SpawnFailed(th.key, msg));
      case Reply(_, Err(msg)) =>
        OthersComeOf(th.key, tries, s.odb, msg);
        if s.work[t].n > 0 {
          FinishedFits(s, t, tries + [PipeError(msg)], PipeBroke(th.key, msg));
        }
      case Reply(_, Ok(line)) => assert (tries + [ResponseLines([line])])[..|tries|] == tries;
      case Classify(_) =>
        ClassifiedComesOf(th.key, tries, s.work[t].line, s.odb);
        FinishedFits(s, t, tries, Classified(s, t));
      case _ =>
    }
  }

  /** What a thread at its work can do. */
  lemma RunningSteps(s: State, a: Action, t: nat)
    requires Inv(s) && Enabled(s, a) && !a.PrefetchLands? && a.t == t && Running(s, t)
    ensures a.Acquire? || a.SpawnFails? || a.Ask? || a.OwnLands? || a.Reply? || a.Classify?
    ensures !s.work[t].NoWork? && !s.work[t].FastOk?
  {
    hide OkIsResident, SlotIsResident, C.Inv;
    assert WorkOk(s, t);
  }

  lemma {:induction false} CoalescerStepFits(s: State, a: Action, t: nat, tries: seq<Try>)
    requires Inv(s) && Enabled(s, a) && t < |s.work| && TriesFit(s, t, tries)
    requires !a.PrefetchLands? && a.t == t && !Running(s, t)
    ensures var r := Apply(s, a);
      t < |r.work| == |r.co.threads| && TriesFit(r, t, NextTries(tries, a, t))
  {
    hide ComesOf, AsText, Verdict, SpawnFailed, PipeBroke, OkIsResident, SlotIsResident, C.Inv;
    assert WorkOk(s, t);
  }

  lemma {:induction false} LastStep(s: State, run: seq<Action>)
    requires ValidRun(s, run) && run != []
    ensures var m := |run| - 1;
      && ValidRun(s, run[..m]) && Enabled(After(s, run[..m]), run[m])
      && Apply(After(s, run[..m]), run[m]) == After(s, run)
    decreases |run|
  {
    hide Apply, Enabled;
    var m := |run| - 1;
    if m == 0 {
      assert run[..0] == [] && run[1..] == [];
    } else {
      assert run[..m][1..] == run[1..][..m - 1];
      LastStep(Apply(s, run[0]), run[1..]);
    }
  }

  lemma {:induction false} RunFitsTries(n: nat, odb: set<Oid>, run: seq<Action>, t: nat)
    requires ValidRun(Init(n, odb), run) && t < n
    ensures var s := After(Init(n, odb), run);
      Inv(s) && t < |s.work| == |s.co.threads| && TriesFit(s, t, TriesOf(run, t))
    decreases |run|
  {
    hide Apply, Enabled, Inv, TriesFit, NextTries;
    if run == [] {
      StartFits(n, odb, t);
    } else {
      var m := |run| - 1;
      LastStep(Init(n, odb), run);
      RunFitsTries(n, odb, run[..m], t);
      StepFitsTries(After(Init(n, odb), run[..m]), run[m], t, TriesOf(run[..m], t));
      StepKeepsInv(After(Init(n, odb), run[..m]), run[m]);
    }
  }

  lemma StartFits(n: nat, odb: set<Oid>, t: nat)
    requires t < n
    ensures Inv(Init(n, odb)) && t < |Init(n, odb).work| == |Init(n, odb).co.threads| && TriesFit(Init(n, odb), t, [])
  {

  }

  /** In any run, what a leader publishes is what its tries since it entered come to: at
      most two queries, the second only after a broken pipe; an answered line by its
      verdict; success without an answer only for an object that is there. */
  lemma {:induction false} SharedIsWhatTriesCameTo(n: nat, odb: set<Oid>, run: seq<Action>, t: nat)
    requires ValidRun(Init(n, odb), run) && t < n
    requires t < |After(Init(n, odb), run).co.threads|
    requires var th := After(Init(n, odb), run).co.threads[t]; th.InCall? && (th.stage.Publishing? || th.stage.Removing?)
    ensures var s := After(Init(n, odb), run);
      var th := s.co.threads[t];
      exists raw :: RawResult(th.key, TriesOf(run, t), s.odb, raw) && th.stage.result == AsText(raw)
  {
    hide Apply, Enabled, Inv, RawResult, AsText;
    RunFitsTries(n, odb, run, t);
  }

  /** The assumption is needed: one thread and one prefetch already waste a query. */
  lemma PrefetchCanWasteAQuery(oid: Oid)
    ensures var run := [Start(0, oid), Enter(0), Acquire(0), PrefetchLands({oid})];
      && ValidRun(Init(1, {}), run)
      && Enabled(After(Init(1, {}), run), Ask(0))
      && After(Init(1, {}), run).co.threads[0].key in After(Init(1, {}), run).odb
  {
    hide ValidRun;
    var s1 := Apply(Init(1, {}), Start(0, oid));
    var s2 := Apply(s1, Enter(0));
    var s3 := Apply(s2, Acquire(0));
    EmptyRun(Apply(s3, PrefetchLands({oid})));
    OneMore(s3, PrefetchLands({oid}), []);
    OneMore(s2, Acquire(0), [PrefetchLands({oid})] + []);
    OneMore(s1, Enter(0), [Acquire(0)] + ([PrefetchLands({oid})] + []));
    OneMore(Init(1, {}), Start(0, oid), [Enter(0)] + ([Acquire(0)] + ([PrefetchLands({oid})] + [])));
    assert [Start(0, oid), Enter(0), Acquire(0), PrefetchLands({oid})]
      == [Start(0, oid)] + ([Enter(0)] + ([Acquire(0)] + ([PrefetchLands({oid})] + [])));
  }

  lemma EmptyRun(s: State)
    ensures ValidRun(s, []) && After(s, []) == s
  {
  }

  lemma OneMore(s: State, a: Action, rest: seq<Action>)
    requires Enabled(s, a) && ValidRun(Apply(s, a), rest)
    ensures ValidRun(s, [a] + rest) && After(s, [a] + rest) == After(Apply(s, a), rest)
  {
    hide Apply, Enabled;
    assert ([a] + rest)[1..] == rest;
  }
}
