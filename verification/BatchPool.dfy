/** The pool of `git cat-file --batch-check` children and the prefetch claims, as a
    transition system.

    Any number of threads run header batches (which claim their OIDs first) and
    on-demand queries (a batch of one, without a claim). A step is one mutex section, one
    line a thread or a child writes to or reads from a pipe, or the failure of either.
    Pipes hold a bounded number of lines, and a batch is written whole before any of its
    answers is read. */
module BatchPool {
  import opened Git
  import opened Claims
  import opened Sequences

  /** A child process: every request written to it, and of these how many it has taken in,
      how many it has answered and how many answers were read back. It takes one request
      at a time and answers in order, so the next line read answers `asked[heard]`. */
  datatype Child = Child(asked: seq<Oid>, taken: nat, answered: nat, heard: nat)

  /** A response line, with the request it answers. */
  datatype Line = Line(request: Oid, text: string)

  datatype Slot = Slot(holder: Option<nat>, child: Option<Child>)

  datatype Outcome = AlreadyResident | SpawnFailed | BrokenTwice | Lines(lines: seq<Line>)

  datatype Stage =
    | Outside
    | Claiming(oids: seq<Oid>)            // about to lock the claim set
    | Scanning(start: nat, i: nat)        // about to try_lock slot (start + i) % n
    | Blocked(start: nat)                 // every try_lock failed: inside lock()
    | Holding(slot: nat)
    | Writing(slot: nat, sent: nat)
    | Reading(slot: nat, lines: seq<Line>)
    | Failed(slot: nat)                   // I/O error, about to reset the slot
    | Leaving(slot: nat, outcome: Outcome)
    | Settled(outcome: Outcome)           // slot given back, claim still held

  /** `busy` records which slots the current scan found locked. */
  datatype Thread = Thread(lead: seq<Oid>, claimed: bool, attempt: nat, busy: set<nat>, stage: Stage)

  /** `inCap` requests fit into a child's input, `outCap` answers into its output. */
  datatype State = State(slots: seq<Slot>, next: nat, inflight: set<Oid>, threads: seq<Thread>, inCap: nat, outCap: nat)

  datatype Action =
    | Prefetch(t: nat, oids: seq<Oid>)
    | OnDemand(t: nat, oid: Oid)
    | Claim(t: nat)
    | TryLock(t: nat)
    | Lock(t: nat)
    | SeeResident(t: nat)                     // the double-check of an on-demand query
    | Spawn(t: nat, ok: bool)
    | StartWriting(t: nat)
    | Write(t: nat, ok: bool)
    | ChildTakes(t: nat)                      // the child in this thread's slot
    | ChildAnswers(t: nat)
    | Flush(t: nat, ok: bool)
    | Read(t: nat, reply: Option<string>)     // None: end of file or an error
    | Finish(t: nat)
    | Reset(t: nat)
    | Drop(t: nat)
    | Return(t: nat)

  function Init(slots: nat, threads: nat, inCap: nat, outCap: nat): State {
    State(seq(slots, _ => Slot(None, None)), 0, {}, seq(threads, _ => Idle()), inCap, outCap)
  }

  function Idle(): Thread {
    Thread([], false, 0, {}, Outside)
  }

  predicate Enabled(s: State, a: Action) {
    && a.t < |s.threads|
    && s.slots != []
    && var th := s.threads[a.t];
       match a
       case Prefetch(_, _) => th.stage.Outside?
       case OnDemand(_, _) => th.stage.Outside?
       case Claim(_) => th.stage.Claiming?
       case TryLock(_) => th.stage.Scanning?
       case Lock(_) => th.stage.Blocked? && th.stage.start < |s.slots| && s.slots[th.stage.start].holder.None?
       case SeeResident(_) => th.stage.Holding? && !th.claimed
       case Spawn(_, _) => th.stage.Holding? && th.stage.slot < |s.slots| && s.slots[th.stage.slot].child.None?
       case StartWriting(_) => th.stage.Holding? && th.stage.slot < |s.slots| && s.slots[th.stage.slot].child.Some?
       case Write(_, ok) =>
         && th.stage.Writing? && HasChild(s, th.stage.slot) && th.stage.sent < |th.lead|
         && (ok ==> Untaken(ChildOf(s, th.stage.slot)) < s.inCap)
       case ChildTakes(_) =>
         && AtPipes(th.stage) && HasChild(s, th.stage.slot)
         && ChildOf(s, th.stage.slot).taken == ChildOf(s, th.stage.slot).answered && 0 < Untaken(ChildOf(s, th.stage.slot))
       case ChildAnswers(_) =>
         && AtPipes(th.stage) && HasChild(s, th.stage.slot)
         && ChildOf(s, th.stage.slot).answered < ChildOf(s, th.stage.slot).taken && Unheard(ChildOf(s, th.stage.slot)) < s.outCap
       case Flush(_, _) => th.stage.Writing? && th.stage.sent == |th.lead|
       case Read(_, reply) =>
         && th.stage.Reading? && |th.stage.lines| < |th.lead| && HasChild(s, th.stage.slot)
         && ChildOf(s, th.stage.slot).heard < |ChildOf(s, th.stage.slot).asked|
         && (reply.Some? ==> 0 < Unheard(ChildOf(s, th.stage.slot)))
       case Finish(_) => th.stage.Reading? && |th.stage.lines| == |th.lead|
       case Reset(_) => th.stage.Failed? && th.stage.slot < |s.slots|
       case Drop(_) => th.stage.Leaving? && th.stage.slot < |s.slots|
       case Return(_) => th.stage.Settled?
  }

  predicate HasChild(s: State, i: nat) {
    i < |s.slots| && s.slots[i].child.Some?
  }

  function ChildOf(s: State, i: nat): Child
    requires HasChild(s, i)
  {
    s.slots[i].child.value
  }

  /** A child has something to do only while its holder writes or reads. */
  predicate AtPipes(st: Stage) {
    st.Writing? || st.Reading?
  }

  /** Requests in the child's input, and answers in its output. */
  function Untaken(c: Child): int {
    |c.asked| - c.taken
  }

  function Unheard(c: Child): int {
    c.answered - c.heard
  }

  function WithChild(s: State, i: nat, c: Child): State
    requires i < |s.slots|
  {
    s.(slots := s.slots[i := s.slots[i].(child := Some(c))])
  }

  /** Take a new starting slot from the round-robin counter. */
  function BeginScan(s: State, t: nat, th: Thread): State
    requires t < |s.threads| && s.slots != []
  {
    s.(next := s.next + 1,
       threads := s.threads[t := th.(busy := {}, stage := Scanning(s.next % |s.slots|, 0))])
  }

  function Moved(s: State, t: nat, stage: Stage): State
    requires t < |s.threads|
  {
    s.(threads := s.threads[t := s.threads[t].(stage := stage)])
  }

  function Apply(s: State, a: Action): (r: State)
    requires Enabled(s, a)
  {
    var th := s.threads[a.t];
    var n := |s.slots|;
    match a
    case Prefetch(t, oids) => Moved(s, t, Claiming(oids))
    case OnDemand(t, oid) => BeginScan(s, t, th.(lead := [oid], claimed := false, attempt := 0))
    case Claim(t) =>
      var lead := LeadOf(th.stage.oids, s.inflight);
      var mine := th.(lead := lead, claimed := true, attempt := 0, busy := {});
      var taken := s.(inflight := s.inflight + Elements(th.stage.oids));
      if lead == [] then taken.(threads := s.threads[t := mine.(stage := Settled(Lines([])))])
      else BeginScan(taken, t, mine)
    case TryLock(t) =>
      var j := TryAt(th.stage.start, th.stage.i, n);
      if s.slots[j].holder.None? then
        Moved(s.(slots := s.slots[j := s.slots[j].(holder := Some(t))]), t, Holding(j))
      else
        var at := if th.stage.i + 1 < n then Scanning(th.stage.start, th.stage.i + 1) else Blocked(th.stage.start);
        s.(threads := s.threads[t := th.(busy := th.busy + {j}, stage := at)])
    case Lock(t) =>
      var j := th.stage.start;
      Moved(s.(slots := s.slots[j := s.slots[j].(holder := Some(t))]), t, Holding(j))
    case SeeResident(t) => Moved(s, t, Leaving(th.stage.slot, AlreadyResident))
    case Spawn(t, ok) =>
      if ok then WithChild(s, th.stage.slot, Child([], 0, 0, 0))
      else Moved(s, t, Leaving(th.stage.slot, SpawnFailed))
    case StartWriting(t) => Moved(s, t, Writing(th.stage.slot, 0))
    case Write(t, ok) =>
      if !ok then Moved(s, t, Failed(th.stage.slot)) else
      var c := ChildOf(s, th.stage.slot);
      Moved(WithChild(s, th.stage.slot, c.(asked := c.asked + [th.lead[th.stage.sent]])), t,
            Writing(th.stage.slot, th.stage.sent + 1))
    case ChildTakes(t) =>
      var c := ChildOf(s, th.stage.slot);
      WithChild(s, th.stage.slot, c.(taken := c.taken + 1))
    case ChildAnswers(t) =>
      var c := ChildOf(s, th.stage.slot);
      WithChild(s, th.stage.slot, c.(answered := c.answered + 1))
    case Flush(t, ok) => Moved(s, t, if ok then Reading(th.stage.slot, []) else Failed(th.stage.slot))
    case Read(t, None) => Moved(s, t, Failed(th.stage.slot))
    case Read(t, Some(text)) =>
      var c := ChildOf(s, th.stage.slot);
      Moved(WithChild(s, th.stage.slot, c.(heard := c.heard + 1)), t,
            Reading(th.stage.slot, th.stage.lines + [Line(c.asked[c.heard], text)]))
    case Finish(t) => Moved(s, t, Leaving(th.stage.slot, Lines(th.stage.lines)))
    case Reset(t) =>
      var freed := s.(slots := s.slots[th.stage.slot := Slot(None, None)]);
      if th.attempt == 0 then BeginScan(freed, t, th.(attempt := 1))
      else Moved(freed, t, Settled(BrokenTwice))
    case Drop(t) =>
      Moved(s.(slots := s.slots[th.stage.slot := s.slots[th.stage.slot].(holder := None)]), t, Settled(th.stage.outcome))
    case Return(t) =>
      s.(inflight := if th.claimed then s.inflight - Elements(th.lead) else s.inflight,
         threads := s.threads[t := Idle()])
  }

  predicate ValidRun(s: State, run: seq<Action>)
    decreases |run|
  {
    run == [] || (Enabled(s, run[0]) && ValidRun(Apply(s, run[0]), run[1..]))
  }

  function After(s: State, run: seq<Action>): State
    requires ValidRun(s, run)
    decreases |run|
  {
    if run == [] then s else After(Apply(s, run[0]), run[1..])
  }

  // ---------------------------------------------------------------- the scan

  /** The slot the k-th try of a scan looks at. */
  function TryAt(start: nat, k: nat, n: nat): nat
    requires n > 0
  {
    (start + k) % n
  }

  ghost function Visited(start: nat, i: nat, n: nat): set<nat>
    requires n > 0
  {
    if i == 0 then {} else Visited(start, i - 1, n) + {TryAt(start, i - 1, n)}
  }

  lemma {:induction false} VisitedIs(start: nat, i: nat, n: nat, k: nat)
    requires n > 0 && k < i
    ensures TryAt(start, k, n) in Visited(start, i, n)
  {
    if k < i - 1 {
      VisitedIs(start, i - 1, n, k);
    }
  }

  /** A full pass looks at every slot, and at none of them twice. */
  lemma {:induction false} FullPassVisitsEachSlotOnce(start: nat, n: nat)
    requires start < n
    ensures forall j: nat | j < n :: j in Visited(start, n, n)
    ensures forall k: nat, m: nat | k < m < n :: TryAt(start, k, n) != TryAt(start, m, n)
  {
    forall k: nat | k < n ensures TryAt(start, k, n) == if start + k < n then start + k else start + k - n {
      Wraps(start + k, n);
    }
    forall j: nat | j < n ensures j in Visited(start, n, n) {
      var k: nat := if j >= start then j - start else j - start + n;
      VisitedIs(start, n, n, k);
      assert TryAt(start, k, n) == j;
    }
  }

  lemma Wraps(x: nat, n: nat)
    requires 0 < n && x < 2 * n
    ensures x % n == if x < n then x else x - n
  {
  }

  // ---------------------------------------------------------------- invariant

  /** Nothing is on its way through either pipe. */
  predicate Drained(child: Option<Child>) {
    child.Some? ==> child.value.heard == child.value.answered == child.value.taken == |child.value.asked|
  }

  predicate HasSlot(st: Stage) {
    st.Holding? || st.Writing? || st.Reading? || st.Failed? || st.Leaving?
  }

  /** The i-th line answers the i-th OID of the batch. */
  ghost predicate AnswersInOrder(lines: seq<Line>, lead: seq<Oid>) {
    |lines| <= |lead| && forall k | 0 <= k < |lines| :: lines[k].request == lead[k]
  }

  ghost predicate OutcomeOk(o: Outcome, lead: seq<Oid>) {
    o.Lines? ==> |o.lines| == |lead| && AnswersInOrder(o.lines, lead)
  }

  /** Exactly the OIDs `rest` were asked and not yet heard of. */
  ghost predicate Unread(child: Option<Child>, rest: seq<Oid>) {
    child.Some? && child.value.heard <= |child.value.asked| && child.value.asked[child.value.heard..] == rest
  }

  /** The child works on at most one request, and the pipes hold no more than they can. */
  predicate WithinPipes(s: State, child: Option<Child>) {
    child.Some? ==>
      var c := child.value;
      && c.heard <= c.answered <= c.taken <= c.answered + 1 && c.taken <= |c.asked|
      && Untaken(c) <= s.inCap && Unheard(c) <= s.outCap
  }

  ghost predicate ThreadOk(s: State, t: nat)
    requires t < |s.threads| && s.slots != []
  {
    var th := s.threads[t];
    var n := |s.slots|;
    && th.attempt <= 1
    && (HasSlot(th.stage) ==> th.stage.slot < n && s.slots[th.stage.slot].holder == Some(t))
    && match th.stage
       case Outside => !th.claimed
       case Claiming(_) => !th.claimed
       case Scanning(start, i) => start < n && i < n && th.busy == Visited(start, i, n)
       case Blocked(start) => start < n && th.busy == Visited(start, n, n)
       case Holding(j) => Drained(s.slots[j].child)
       case Writing(j, sent) =>
         sent <= |th.lead| && Unread(s.slots[j].child, th.lead[..sent]) && WithinPipes(s, s.slots[j].child)
       case Reading(j, lines) =>
         AnswersInOrder(lines, th.lead) && Unread(s.slots[j].child, th.lead[|lines|..]) && WithinPipes(s, s.slots[j].child)
       case Failed(_) => true
       case Leaving(j, o) => Drained(s.slots[j].child) && OutcomeOk(o, th.lead)
       case Settled(o) => OutcomeOk(o, th.lead)
  }

  ghost predicate SlotOk(s: State, i: nat)
    requires i < |s.slots|
  {
    match s.slots[i].holder
    case None => Drained(s.slots[i].child)
    case Some(t) => t < |s.threads| && HasSlot(s.threads[t].stage) && s.threads[t].stage.slot == i
  }

  /** What a thread's claim guard holds. */
  ghost function Claimed(th: Thread): set<Oid> {
    if th.claimed then Elements(th.lead) else {}
  }

  ghost predicate ClaimsOk(s: State) {
    && (forall t | 0 <= t < |s.threads| :: Claimed(s.threads[t]) <= s.inflight)
    && (forall o | o in s.inflight :: exists t :: 0 <= t < |s.threads| && o in Claimed(s.threads[t]))
    && (forall t, u | 0 <= t < u < |s.threads| :: Claimed(s.threads[t]) !! Claimed(s.threads[u]))
  }

  ghost predicate Inv(s: State) {
    && s.slots != [] && s.inCap > 0 && s.outCap > 0
    && ClaimsOk(s)
    && (forall i | 0 <= i < |s.slots| :: SlotOk(s, i))
    && (forall t | 0 <= t < |s.threads| :: ThreadOk(s, t))
  }

  /** A step touches at most its own thread's claim, winning free OIDs or giving all back. */
  lemma {:induction false} StepMovesOwnClaim(s: State, a: Action)
    requires Enabled(s, a)
    requires s.threads[a.t].stage.Claiming? || s.threads[a.t].stage.Outside? ==> !s.threads[a.t].claimed
    ensures var r := Apply(s, a);
      && |r.threads| == |s.threads|
      && (forall t | 0 <= t < |s.threads| && t != a.t :: r.threads[t] == s.threads[t])
      && var was, is_ := Claimed(s.threads[a.t]), Claimed(r.threads[a.t]);
      || (is_ == was && r.inflight == s.inflight)
      || (was == {} && is_ !! s.inflight && r.inflight == s.inflight + is_)
      || (is_ == {} && r.inflight == s.inflight - was)
  {
    hide LeadOf, Elements;
    if a.Claim? {
      LeadIsWhatIsFree(s.threads[a.t].stage.oids, s.inflight);
    }
  }

  lemma {:induction false} StepKeepsClaims(s: State, a: Action)
    requires ClaimsOk(s) && Enabled(s, a)
    requires s.threads[a.t].stage.Claiming? || s.threads[a.t].stage.Outside? ==> !s.threads[a.t].claimed
    ensures ClaimsOk(Apply(s, a))
  {
    hide Apply, Claimed;
    StepMovesOwnClaim(s, a);
    var r := Apply(s, a);
    forall o | o in r.inflight ensures exists t :: 0 <= t < |r.threads| && o in Claimed(r.threads[t]) {
      if o in s.inflight {
        var t :| 0 <= t < |s.threads| && o in Claimed(s.threads[t]);
        assert o in Claimed(r.threads[t]);
      } else {
        assert o in Claimed(r.threads[a.t]);
      }
    }
  }

  lemma {:induction false} StepKeepsOwn(s: State, a: Action)
    requires Inv(s) && Enabled(s, a)
    ensures ThreadOk(Apply(s, a), a.t)
  {
    hide LeadOf, Elements, Visited, TryAt;
    assert ThreadOk(s, a.t);
    match a
    case Claim(_) => ScanStarts(s, a);
    case OnDemand(_, _) => ScanStarts(s, a);
    case Reset(_) => ScanStarts(s, a);
    case Lock(_) => TakesSlot(s, a);
    case TryLock(_) => TakesSlot(s, a);
    case Write(_, _) => Writes(s, a);
    case Flush(_, _) => assert s.threads[a.t].lead[..|s.threads[a.t].lead|] == s.threads[a.t].lead[0..];
    case Read(_, _) => Reads(s, a);
    case _ =>
  }

  lemma {:induction false} ScanStarts(s: State, a: Action)
    requires Inv(s) && Enabled(s, a)
    requires a.Claim? || a.OnDemand? || a.Reset?
    ensures ThreadOk(Apply(s, a), a.t)
  {
    hide LeadOf, Elements, ClaimsOk, SlotOk;
    assert ThreadOk(s, a.t);
    assert Visited(s.next % |s.slots|, 0, |s.slots|) == {};
  }

  lemma {:induction false} TakesSlot(s: State, a: Action)
    requires Inv(s) && Enabled(s, a)
    requires a.Lock? || a.TryLock?
    ensures ThreadOk(Apply(s, a), a.t)
  {
    hide LeadOf, Elements, ClaimsOk;
    var st := s.threads[a.t].stage;
    assert ThreadOk(s, a.t);
    var j := if a.Lock? then st.start else TryAt(st.start, st.i, |s.slots|);
    assert SlotOk(s, j);
  }

  lemma {:induction false} Writes(s: State, a: Action)
    requires Inv(s) && Enabled(s, a) && a.Write?
    ensures ThreadOk(Apply(s, a), a.t)
  {
    hide LeadOf, Elements, ClaimsOk, Visited, SlotOk;
    var th := s.threads[a.t];
    assert ThreadOk(s, a.t);
    if a.ok {
      var c := s.slots[th.stage.slot].child.value;
      var k := th.stage.sent;
      assert (c.asked + [th.lead[k]])[c.heard..] == c.asked[c.heard..] + [th.lead[k]];
      assert th.lead[..k + 1] == th.lead[..k] + [th.lead[k]];
    }
  }

  lemma {:induction false} Reads(s: State, a: Action)
    requires Inv(s) && Enabled(s, a) && a.Read?
    ensures ThreadOk(Apply(s, a), a.t)
  {
    hide LeadOf, Elements, ClaimsOk, Visited, SlotOk;
    var th := s.threads[a.t];
    assert ThreadOk(s, a.t);
    if a.reply.Some? {
      var c := s.slots[th.stage.slot].child.value;
      var k := |th.stage.lines|;
      assert c.asked[c.heard] == th.lead[k..][0];
      assert c.asked[c.heard + 1..] == c.asked[c.heard..][1..];
      assert th.lead[k + 1..] == th.lead[k..][1..];
    }
  }

  /** Slots move only under their holder's hands, so other threads notice nothing. */
  lemma {:induction false} OthersUntouched(s: State, a: Action, t: nat)
    requires Inv(s) && Enabled(s, a)
    requires t < |s.threads| && t != a.t
    ensures var r := Apply(s, a);
      && |r.threads| == |s.threads| && |r.slots| == |s.slots| && r.inCap == s.inCap && r.outCap == s.outCap
      && r.threads[t] == s.threads[t]
      && (HasSlot(s.threads[t].stage) ==>
            s.threads[t].stage.slot < |s.slots| && r.slots[s.threads[t].stage.slot] == s.slots[s.threads[t].stage.slot])
  {
    hide LeadOf, Elements, Visited, Drained, Unread, WithinPipes, AnswersInOrder, OutcomeOk, ClaimsOk, SlotOk;
    assert ThreadOk(s, t) && ThreadOk(s, a.t);
  }

  lemma {:induction false} StepKeepsOthers(s: State, a: Action, t: nat)
    requires Inv(s) && Enabled(s, a)
    requires t < |s.threads| && t != a.t
    ensures t < |Apply(s, a).threads| && |Apply(s, a).slots| == |s.slots| && ThreadOk(Apply(s, a), t)
  {
    hide Apply, Enabled, Visited, Drained, Unread, AnswersInOrder, OutcomeOk, ClaimsOk, SlotOk;
    assert ThreadOk(s, t);
    OthersUntouched(s, a, t);
  }

  lemma {:induction false} StepKeepsSlot(s: State, a: Action, i: nat)
    requires Inv(s) && Enabled(s, a)
    requires i < |s.slots|
    ensures |Apply(s, a).slots| == |s.slots| && SlotOk(Apply(s, a), i)
  {
    hide LeadOf, Elements, Visited, Unread, WithinPipes, AnswersInOrder, ClaimsOk;
    var r := Apply(s, a);
    assert SlotOk(s, i) && ThreadOk(s, a.t);
  }

  lemma {:induction false} StepKeepsInv(s: State, a: Action)
    requires Inv(s) && Enabled(s, a)
    ensures Inv(Apply(s, a))
  {
    hide LeadOf, Elements, Visited, Apply, SlotOk, Enabled;
    StepKeepsThreads(s, a);
    assert ThreadOk(s, a.t);
    StepKeepsClaims(s, a);
    StepKeepsOwn(s, a);
    var r := Apply(s, a);
    forall i | 0 <= i < |r.slots| ensures SlotOk(r, i) {
      StepKeepsSlot(s, a, i);
    }
    forall t | 0 <= t < |r.threads| ensures ThreadOk(r, t) {
      if t != a.t {
        StepKeepsOthers(s, a, t);
      }
    }
  }

  lemma StepKeepsThreads(s: State, a: Action)
    requires Enabled(s, a)
    ensures Apply(s, a).inCap == s.inCap && Apply(s, a).outCap == s.outCap
    ensures |Apply(s, a).threads| == |s.threads| && |Apply(s, a).slots| == |s.slots| && a.t < |s.threads| && s.slots != []
  {
  }

  lemma {:induction false} RunKeepsInv(s: State, run: seq<Action>)
    requires Inv(s) && ValidRun(s, run)
    ensures Inv(After(s, run))
    decreases |run|
  {
    hide Apply, Enabled, Inv;
    if run != [] {
      StepKeepsInv(s, run[0]);
      RunKeepsInv(Apply(s, run[0]), run[1..]);
    }
  }

  lemma {:induction false} ReachableInv(slots: nat, threads: nat, inCap: nat, outCap: nat, run: seq<Action>)
    requires slots > 0 && inCap > 0 && outCap > 0 && ValidRun(Init(slots, threads, inCap, outCap), run)
    ensures Inv(After(Init(slots, threads, inCap, outCap), run))
  {
    var s := Init(slots, threads, inCap, outCap);
    assert forall t | 0 <= t < |s.threads| :: ThreadOk(s, t);
    RunKeepsInv(s, run);
  }

  // ------------------------------------------------------------------ results

  /** In every reachable state of any interleaving an unlocked slot is empty or holds a
      child with nothing left to read, and a batch that came back has one line per OID,
      the i-th answering the i-th, whatever failed or was respawned before. */
  lemma {:induction false} PipesStayAligned(slots: nat, threads: nat, inCap: nat, outCap: nat, run: seq<Action>)
    requires slots > 0 && inCap > 0 && outCap > 0 && ValidRun(Init(slots, threads, inCap, outCap), run)
    ensures var s := After(Init(slots, threads, inCap, outCap), run);
      && (forall i | 0 <= i < |s.slots| && s.slots[i].holder.None? :: Drained(s.slots[i].child))
      && (forall t | 0 <= t < |s.threads| && s.threads[t].stage.Settled? && s.threads[t].stage.outcome.Lines? ::
            var lines := s.threads[t].stage.outcome.lines;
            |lines| == |s.threads[t].lead| && forall k | 0 <= k < |lines| :: lines[k].request == s.threads[t].lead[k])
  {
    ReachableInv(slots, threads, inCap, outCap, run);
    var s := After(Init(slots, threads, inCap, outCap), run);
    forall i | 0 <= i < |s.slots| ensures s.slots[i].holder.None? ==> Drained(s.slots[i].child) {
      assert SlotOk(s, i);
    }
    forall t | 0 <= t < |s.threads| ensures s.threads[t].stage.Settled? ==> OutcomeOk(s.threads[t].stage.outcome, s.threads[t].lead) {
      assert ThreadOk(s, t);
    }
  }

  /** A slot is never in two hands. */
  lemma {:induction false} SlotsAreExclusive(slots: nat, threads: nat, inCap: nat, outCap: nat, run: seq<Action>, t: nat, u: nat)
    requires slots > 0 && inCap > 0 && outCap > 0 && ValidRun(Init(slots, threads, inCap, outCap), run)
    requires var s := After(Init(slots, threads, inCap, outCap), run);
      && t < |s.threads| && u < |s.threads| && HasSlot(s.threads[t].stage) && HasSlot(s.threads[u].stage)
      && s.threads[t].stage.slot == s.threads[u].stage.slot
    ensures t == u
  {
    ReachableInv(slots, threads, inCap, outCap, run);
    var s := After(Init(slots, threads, inCap, outCap), run);
    assert ThreadOk(s, t) && ThreadOk(s, u);
  }

  /** Thread `t` takes a new starting slot. */
  predicate StartsScan(a: Action, t: nat) {
    a.t == t && (a.OnDemand? || a.Claim? || a.Reset?)
  }

  /** Some other thread held slot `j` at some state of this run. */
  ghost predicate HeldSometime(s: State, run: seq<Action>, t: nat, j: nat)
    requires ValidRun(s, run)
    decreases |run|
  {
    || (j < |s.slots| && s.slots[j].holder.Some? && s.slots[j].holder.value != t)
    || (run != [] && HeldSometime(Apply(s, run[0]), run[1..], t, j))
  }

  ghost predicate LastScanAt(run: seq<Action>, k: nat, t: nat) {
    && 0 < k <= |run| && StartsScan(run[k - 1], t)
    && forall i | k <= i < |run| :: !StartsScan(run[i], t)
  }

  lemma {:induction false} RunSplits(s: State, run: seq<Action>, k: nat)
    requires ValidRun(s, run) && k <= |run|
    ensures ValidRun(s, run[..k]) && ValidRun(After(s, run[..k]), run[k..])
    ensures After(After(s, run[..k]), run[k..]) == After(s, run)
    decreases |run|
  {
    hide Apply, Enabled;
    if k == 0 {
      assert run[..0] == [] && run[0..] == run;
    } else {
      assert run[..k][1..] == run[1..][..k - 1] && run[1..][k - 1..] == run[k..];
      RunSplits(Apply(s, run[0]), run[1..], k - 1);
    }
  }

  /** What a step adds to a thread's record of locked slots was locked by another. */
  lemma StepFindsHeld(s: State, a: Action, t: nat, j: nat)
    requires Inv(s) && Enabled(s, a) && t < |s.threads|
    requires t < |Apply(s, a).threads| && j in Apply(s, a).threads[t].busy
    ensures j in s.threads[t].busy || (j < |s.slots| && s.slots[j].holder.Some? && s.slots[j].holder.value != t)
  {
    hide LeadOf, Elements, ClaimsOk, Visited;
    if a.TryLock? && a.t == t {
      assert SlotOk(s, TryAt(s.threads[t].stage.start, s.threads[t].stage.i, |s.slots|));
    }
  }

  lemma {:induction false} BusyWasHeld(s: State, run: seq<Action>, t: nat, j: nat)
    requires Inv(s) && ValidRun(s, run) && t < |s.threads|
    requires t < |After(s, run).threads| && j in After(s, run).threads[t].busy
    ensures j in s.threads[t].busy || HeldSometime(s, run, t, j)
    decreases |run|
  {
    hide Apply, Enabled, Inv;
    if run != [] {
      StepKeepsInv(s, run[0]);
      StepKeepsThreads(s, run[0]);
      BusyWasHeld(Apply(s, run[0]), run[1..], t, j);
      if j in Apply(s, run[0]).threads[t].busy {
        StepFindsHeld(s, run[0], t, j);
      }
    }
  }

  lemma StepNeedsScan(s: State, a: Action, t: nat)
    requires Enabled(s, a) && t < |s.threads| && !StartsScan(a, t)
    requires !s.threads[t].stage.Scanning? && !s.threads[t].stage.Blocked?
    ensures t < |Apply(s, a).threads|
    ensures !Apply(s, a).threads[t].stage.Scanning? && !Apply(s, a).threads[t].stage.Blocked?
  {
    hide LeadOf, Elements;
  }

  /** Without a new scan nobody comes to be scanning or blocked. */
  lemma {:induction false} NoScanNoBlock(s: State, run: seq<Action>, t: nat)
    requires ValidRun(s, run) && t < |s.threads|
    requires forall i | 0 <= i < |run| :: !StartsScan(run[i], t)
    requires !s.threads[t].stage.Scanning? && !s.threads[t].stage.Blocked?
    ensures t < |After(s, run).threads| && !After(s, run).threads[t].stage.Scanning? && !After(s, run).threads[t].stage.Blocked?
    decreases |run|
  {
    hide Apply, Enabled, StartsScan;
    if run != [] {
      StepNeedsScan(s, run[0], t);
      forall i | 0 <= i < |run[1..]| ensures !StartsScan(run[1..][i], t) {
        assert run[1..][i] == run[i + 1];
      }
      NoScanNoBlock(Apply(s, run[0]), run[1..], t);
    }
  }

  lemma {:induction false} LastScanExists(run: seq<Action>, t: nat, n: nat)
    requires n <= |run| && forall i | n <= i < |run| :: !StartsScan(run[i], t)
    ensures (exists k :: LastScanAt(run, k, t)) || forall i | 0 <= i < |run| :: !StartsScan(run[i], t)
  {
    if n > 0 {
      if StartsScan(run[n - 1], t) {
        assert LastScanAt(run, n, t);
      } else {
        LastScanExists(run, t, n - 1);
      }
    }
  }

  lemma ScanStartsClean(s: State, a: Action, t: nat)
    requires Enabled(s, a) && StartsScan(a, t)
    ensures t < |Apply(s, a).threads|
    ensures var th := Apply(s, a).threads[t];
      th.busy == {} || !(th.stage.Scanning? || th.stage.Blocked?)
  {
    hide LeadOf, Elements;
  }

  lemma {:induction false} RunKeepsThreads(s: State, run: seq<Action>)
    requires ValidRun(s, run)
    ensures |After(s, run).threads| == |s.threads| && |After(s, run).slots| == |s.slots|
    ensures After(s, run).inCap == s.inCap && After(s, run).outCap == s.outCap
    decreases |run|
  {
    hide Apply, Enabled;
    if run != [] {
      StepKeepsThreads(s, run[0]);
      RunKeepsThreads(Apply(s, run[0]), run[1..]);
    }
  }

  lemma {:induction false} LastStep(s: State, run: seq<Action>)
    requires ValidRun(s, run) && run != []
    ensures var m := |run| - 1;
      && ValidRun(s, run[..m]) && Enabled(After(s, run[..m]), run[m])
      && Apply(After(s, run[..m]), run[m]) == After(s, run)
  {
    hide Apply, Enabled;
    var m := |run| - 1;
    RunSplits(s, run, m);
    assert run[m..] == [run[m]] && run[m..][1..] == [];
  }

  lemma BlockedSawAll(s: State, t: nat, j: nat)
    requires Inv(s) && t < |s.threads| && s.threads[t].stage.Blocked? && j < |s.slots|
    ensures j in s.threads[t].busy
  {
    assert ThreadOk(s, t);
    FullPassVisitsEachSlotOnce(s.threads[t].stage.start, |s.slots|);
  }

  lemma {:induction false} SinceLastScan(s: State, run: seq<Action>, k: nat, t: nat)
    requires Inv(s) && ValidRun(s, run) && t < |s.threads| && LastScanAt(run, k, t)
    requires t < |After(s, run).threads| && After(s, run).threads[t].stage.Blocked?
    ensures AllHeldSince(s, run, k, t)
  {
    hide Apply, Enabled, Inv;
    RunSplits(s, run, k);
    RunKeepsInv(s, run[..k]);
    RunKeepsInv(s, run);
    RunKeepsThreads(s, run[..k]);
    RunKeepsThreads(s, run);
    var mid := After(s, run[..k]);
    LastStep(s, run[..k]);
    assert run[..k][k - 1] == run[k - 1];
    ScanStartsClean(After(s, run[..k][..k - 1]), run[k - 1], t);
    if mid.threads[t].busy != {} {
      forall i | 0 <= i < |run[k..]| ensures !StartsScan(run[k..][i], t) {
        assert run[k..][i] == run[k + i];
      }
      NoScanNoBlock(mid, run[k..], t);
      assert false;
    }
    forall j: nat | j < |s.slots| ensures HeldSometime(mid, run[k..], t, j) {
      BlockedSawAll(After(s, run), t, j);
      BusyWasHeld(mid, run[k..], t, j);
    }
  }

  /** A caller blocks only if, since it last began a scan, every single slot was at some
      moment held by another thread. */
  lemma {:induction false} BlocksOnlyIfAllWereBusy(slots: nat, threads: nat, inCap: nat, outCap: nat, run: seq<Action>, t: nat)
    requires slots > 0 && inCap > 0 && outCap > 0 && ValidRun(Init(slots, threads, inCap, outCap), run)
    requires t < |After(Init(slots, threads, inCap, outCap), run).threads|
    requires After(Init(slots, threads, inCap, outCap), run).threads[t].stage.Blocked?
    ensures exists k :: LastScanAt(run, k, t) && AllHeldSince(Init(slots, threads, inCap, outCap), run, k, t)
  {
    hide Apply, Enabled, Inv;
    var s := Init(slots, threads, inCap, outCap);
    RunKeepsThreads(s, run);
    LastScanExists(run, t, |run|);
    if forall i | 0 <= i < |run| :: !StartsScan(run[i], t) {
      NoScanNoBlock(s, run, t);
    } else {
      var k :| LastScanAt(run, k, t);
      ReachableInv(slots, threads, inCap, outCap, []);
      SinceLastScan(s, run, k, t);
    }
  }

  ghost predicate AllHeldSince(s: State, run: seq<Action>, k: nat, t: nat) {
    && k <= |run| && ValidRun(s, run[..k]) && ValidRun(After(s, run[..k]), run[k..])
    && forall j: nat | j < |s.slots| :: HeldSometime(After(s, run[..k]), run[k..], t, j)
  }

  /** The in-flight set is the disjoint union of the live claims: no OID is in two
      prefetch batches, and nothing stays claimed once every call has returned, by
      whatever exit. */
  lemma {:induction false} ClaimsPartitionTheWork(slots: nat, threads: nat, inCap: nat, outCap: nat, run: seq<Action>)
    requires slots > 0 && inCap > 0 && outCap > 0 && ValidRun(Init(slots, threads, inCap, outCap), run)
    ensures var s := After(Init(slots, threads, inCap, outCap), run);
      && (forall o :: o in s.inflight <==> exists t :: 0 <= t < |s.threads| && o in Claimed(s.threads[t]))
      && (forall t, u | 0 <= t < u < |s.threads| :: Claimed(s.threads[t]) !! Claimed(s.threads[u]))
      && ((forall t | 0 <= t < |s.threads| :: s.threads[t].stage.Outside?) ==> s.inflight == {})
  {
    ReachableInv(slots, threads, inCap, outCap, run);
    var s := After(Init(slots, threads, inCap, outCap), run);
    if forall t | 0 <= t < |s.threads| :: s.threads[t].stage.Outside? {
      forall t | 0 <= t < |s.threads| ensures Claimed(s.threads[t]) == {} {
        assert ThreadOk(s, t);
      }
    }
  }

  // ----------------------------------------------------------------- progress

  predicate Starts(a: Action) {
    a.Prefetch? || a.OnDemand?
  }

  /** The failures a step can be: git does not start, or a pipe breaks. */
  predicate Fault(a: Action) {
    || (a.Spawn? && !a.ok) || (a.Write? && !a.ok) || (a.Flush? && !a.ok) || (a.Read? && a.reply.None?)
  }

  /** A step of a call already made in which nothing breaks. */
  predicate Healthy(a: Action) {
    !Starts(a) && !Fault(a)
  }

  /** How many requests can be written before an answer is read: those in the child's
      input, the one it works on, and those whose answers fill its output. */
  function Room(s: State): nat {
    s.inCap + 1 + s.outCap
  }

  ghost predicate AllFit(s: State) {
    forall t | 0 <= t < |s.threads| :: |s.threads[t].lead| <= Room(s)
  }

  /** The thread waits for room in the child's input and the child for room in its output. */
  predicate Jammed(s: State, t: nat) {
    && t < |s.threads| && s.threads[t].stage.Writing? && s.threads[t].stage.sent < |s.threads[t].lead|
    && HasChild(s, s.threads[t].stage.slot)
    && var c := ChildOf(s, s.threads[t].stage.slot);
       Untaken(c) == s.inCap && c.answered < c.taken && Unheard(c) == s.outCap
  }

  /** Jammed, or waiting for the slot of a thread that is. */
  predicate Hangs(s: State, t: nat) {
    t < |s.threads| &&
    (Jammed(s, t)
     || (s.threads[t].stage.Blocked? && s.threads[t].stage.start < |s.slots|
         && s.slots[s.threads[t].stage.start].holder.Some? && Jammed(s, s.slots[s.threads[t].stage.start].holder.value)))
  }

  /** A thread that is jammed has written all that there is room for, and is not done. */
  lemma JammedIsLong(s: State, t: nat)
    requires Inv(s) && Jammed(s, t)
    ensures s.threads[t].stage.sent == Room(s) < |s.threads[t].lead|
  {
    hide Visited, Elements, ClaimsOk, SlotOk, AnswersInOrder;
    assert ThreadOk(s, t);
    var c := ChildOf(s, s.threads[t].stage.slot);
    assert |c.asked[c.heard..]| == s.threads[t].stage.sent;
  }

  /** What a thread that has its slot, or the child in it, does next. */
  function OwnStep(s: State, t: nat): Action
    requires t < |s.threads| && s.slots != [] && HasSlot(s.threads[t].stage) && s.threads[t].stage.slot < |s.slots|
  {
    var th := s.threads[t];
    match th.stage
    case Holding(j) => if s.slots[j].child.None? then Spawn(t, true) else StartWriting(t)
    case Writing(j, sent) =>
      if sent == |th.lead| then Flush(t, true)
      else if HasChild(s, j) && Untaken(ChildOf(s, j)) < s.inCap then Write(t, true)
      else ChildStep(s, j, t)
    case Reading(j, lines) =>
      if |lines| == |th.lead| then Finish(t)
      else if HasChild(s, j) && 0 < Unheard(ChildOf(s, j)) then Read(t, Some(""))
      else ChildStep(s, j, t)
    case Failed(_) => Reset(t)
    case _ => Drop(t)
  }

  function ChildStep(s: State, j: nat, t: nat): Action {
    if HasChild(s, j) && ChildOf(s, j).answered < ChildOf(s, j).taken then ChildAnswers(t) else ChildTakes(t)
  }

  lemma {:induction false} OwnStepEnabled(s: State, t: nat)
    requires Inv(s) && t < |s.threads| && HasSlot(s.threads[t].stage) && !Jammed(s, t)
    ensures s.threads[t].stage.slot < |s.slots| && Enabled(s, OwnStep(s, t)) && Healthy(OwnStep(s, t))
  {
    hide Visited, Elements, SlotOk, ClaimsOk;
    assert ThreadOk(s, t);
    var th := s.threads[t];
    if th.stage.Reading? && |th.stage.lines| < |th.lead| {
      assert |th.lead[|th.stage.lines|..]| > 0;
    }
  }

  /** Unless a caller hangs, some healthy step is possible for it, for the child it uses
      or for whoever has the slot it waits for. */
  lemma {:induction false} MovesUnlessItHangs(s: State, t: nat)
    requires Inv(s) && t < |s.threads| && !s.threads[t].stage.Outside? && !Hangs(s, t)
    ensures exists a :: Healthy(a) && Enabled(s, a)
  {
    hide Visited, Elements, Unread, AnswersInOrder, ClaimsOk;
    assert ThreadOk(s, t);
    var st := s.threads[t].stage;
    if HasSlot(st) {
      OwnStepEnabled(s, t);
    } else if st.Blocked? && s.slots[st.start].holder.Some? {
      assert SlotOk(s, st.start);
      OwnStepEnabled(s, s.slots[st.start].holder.value);
    } else {
      var a := match st
        case Claiming(_) => Claim(t)
        case Scanning(_, _) => TryLock(t)
        case Blocked(_) => Lock(t)
        case _ => Return(t);
      assert Healthy(a) && Enabled(s, a);
    }
  }

  /** A caller that hangs has no healthy step. */
  lemma {:induction false} NoStepWhenItHangs(s: State, a: Action)
    requires Inv(s) && Enabled(s, a) && Hangs(s, a.t)
    ensures !Healthy(a)
  {
    hide Visited, Elements, Unread, AnswersInOrder, ClaimsOk, SlotOk;
    assert ThreadOk(s, a.t);
  }

  /** Nothing healthy can happen any more exactly when every call that is not over hangs. */
  lemma {:induction false} StuckIff(s: State)
    requires Inv(s)
    ensures (forall a | Enabled(s, a) :: !Healthy(a))
      <==> forall t | 0 <= t < |s.threads| :: s.threads[t].stage.Outside? || Hangs(s, t)
  {
    hide Inv, Hangs, Healthy;
    forall t | 0 <= t < |s.threads| && !s.threads[t].stage.Outside? && !Hangs(s, t)
      ensures exists a :: Healthy(a) && Enabled(s, a)
    {
      MovesUnlessItHangs(s, t);
    }
    if forall t | 0 <= t < |s.threads| :: s.threads[t].stage.Outside? || Hangs(s, t) {
      forall a | Enabled(s, a) ensures !Healthy(a) {
        if Hangs(s, a.t) {
          NoStepWhenItHangs(s, a);
        } else {
          OutsideOnlyStarts(s, a);
        }
      }
    }
  }

  lemma OutsideOnlyStarts(s: State, a: Action)
    requires Enabled(s, a) && s.threads[a.t].stage.Outside?
    ensures !Healthy(a)
  {
  }

  /** No deadlock as long as every batch fits into its pipes: while a call is unfinished,
      some thread or child can move without anything breaking. */
  lemma {:induction false} NeverStuck(s: State, t: nat)
    requires Inv(s) && AllFit(s) && t < |s.threads| && !s.threads[t].stage.Outside?
    ensures exists a :: Healthy(a) && Enabled(s, a)
  {
    hide Healthy, Enabled, Inv;
    forall u | 0 <= u < |s.threads| ensures !Jammed(s, u) {
      if Jammed(s, u) {
        JammedIsLong(s, u);
      }
    }
    MovesUnlessItHangs(s, t);
  }

  /** Steps one attempt can take, from a scan's first try to giving the slot back. */
  function Pass(size: nat, n: nat): nat {
    7 + 4 * size + n
  }

  /** What the child in a slot still has to take in and to answer. */
  function Backlog(s: State, j: nat): nat {
    if HasChild(s, j) && ChildOf(s, j).taken <= |ChildOf(s, j).asked| && ChildOf(s, j).answered <= |ChildOf(s, j).asked|
    then Untaken(ChildOf(s, j)) + (|ChildOf(s, j).asked| - ChildOf(s, j).answered) else 0
  }

  /** An upper bound on the steps a thread's call still takes. */
  ghost function Ahead(s: State, th: Thread): nat {
    var n := |s.slots|;
    var l := |th.lead|;
    var retry := if th.attempt == 0 then Pass(l, n) else 0;
    match th.stage
    case Outside => 0
    case Claiming(oids) => 1 + 2 * Pass(|oids|, n)
    case Scanning(_, i) => 7 + 4 * l + retry + (if i < n then n - i else 0)
    case Blocked(_) => 7 + 4 * l + retry
    case Holding(j) => (if HasChild(s, j) then 5 else 6) + 4 * l + retry
    case Writing(j, sent) => 4 + (if sent < l then 4 * (l - sent) else 0) + sent + Backlog(s, j) + retry
    case Reading(j, lines) => 3 + (if |lines| < l then l - |lines| else 0) + Backlog(s, j) + retry
    case Failed(_) => 2 + retry
    case Leaving(_, _) => 2
    case Settled(_) => 1
  }

  lemma {:induction false} LeadIsNoLonger(candidates: seq<Oid>, taken: set<Oid>)
    ensures |LeadOf(candidates, taken)| <= |candidates|
  {
    if candidates != [] {
      LeadIsNoLonger(candidates[1..], taken);
      LeadIsNoLonger(candidates[1..], taken + {candidates[0]});
    }
  }

  /** Every step of a call brings that call nearer its end and delays nobody, so a call
      takes at most `Ahead` steps however the threads are interleaved. */
  lemma {:induction false} EveryStepIsProgress(s: State, a: Action, u: nat)
    requires Inv(s) && Enabled(s, a) && !Starts(a)
    requires u < |s.threads|
    ensures u < |Apply(s, a).threads|
    ensures u == a.t ==> Ahead(Apply(s, a), Apply(s, a).threads[u]) < Ahead(s, s.threads[u])
    ensures u != a.t ==> Ahead(Apply(s, a), Apply(s, a).threads[u]) == Ahead(s, s.threads[u])
  {
    hide Apply, Enabled, Inv, Pass;
    StepKeepsThreads(s, a);
    if u == a.t {
      OwnProgress(s, a);
    } else {
      OthersUntouched(s, a, u);
    }
  }

  lemma {:induction false} OwnProgress(s: State, a: Action)
    requires Inv(s) && Enabled(s, a) && !Starts(a)
    ensures a.t < |Apply(s, a).threads|
    ensures Ahead(Apply(s, a), Apply(s, a).threads[a.t]) < Ahead(s, s.threads[a.t])
  {
    hide LeadOf, Elements, Visited, Drained, Unread, OutcomeOk, AnswersInOrder, ClaimsOk, SlotOk;
    assert ThreadOk(s, a.t);
    match a
    case Claim(_) => ClaimIsProgress(s, a);
    case TryLock(_) => TryLockIsProgress(s, a);
    case StartWriting(_) => WriteIsProgress(s, a);
    case Write(_, _) => WriteIsProgress(s, a);
    case ChildTakes(_) => ChildStepIsProgress(s, a);
    case ChildAnswers(_) => ChildStepIsProgress(s, a);
    case Flush(_, _) => ReadIsProgress(s, a);
    case Read(_, _) => ReadIsProgress(s, a);
    case _ =>
  }

  lemma {:induction false} WriteIsProgress(s: State, a: Action)
    requires Enabled(s, a) && s.slots != [] && ThreadOk(s, a.t)
    requires a.StartWriting? || a.Write?
    ensures Ahead(Apply(s, a), Apply(s, a).threads[a.t]) < Ahead(s, s.threads[a.t])
  {
    hide LeadOf, Elements, Visited, Unread, OutcomeOk, AnswersInOrder, Pass;
  }

  lemma {:induction false} ChildStepIsProgress(s: State, a: Action)
    requires Enabled(s, a) && s.slots != [] && ThreadOk(s, a.t)
    requires a.ChildTakes? || a.ChildAnswers?
    ensures Ahead(Apply(s, a), Apply(s, a).threads[a.t]) < Ahead(s, s.threads[a.t])
  {
    hide LeadOf, Elements, Visited, Unread, OutcomeOk, AnswersInOrder, Pass;
  }

  lemma {:induction false} ReadIsProgress(s: State, a: Action)
    requires Enabled(s, a) && s.slots != [] && ThreadOk(s, a.t)
    requires a.Flush? || a.Read?
    ensures Ahead(Apply(s, a), Apply(s, a).threads[a.t]) < Ahead(s, s.threads[a.t])
  {
    hide LeadOf, Elements, Visited, Unread, OutcomeOk, AnswersInOrder, Pass;
  }

  lemma {:induction false} ClaimIsProgress(s: State, a: Action)
    requires Enabled(s, a) && a.Claim?
    ensures Ahead(Apply(s, a), Apply(s, a).threads[a.t]) < Ahead(s, s.threads[a.t])
  {
    hide LeadOf, Elements;
    LeadIsNoLonger(s.threads[a.t].stage.oids, s.inflight);
  }

  lemma {:induction false} TryLockIsProgress(s: State, a: Action)
    requires Enabled(s, a) && a.TryLock? && s.threads[a.t].stage.i < |s.slots|
    ensures Ahead(Apply(s, a), Apply(s, a).threads[a.t]) < Ahead(s, s.threads[a.t])
  {
  }

  /** Steps of thread `t` in a run. */
  ghost function StepsOf(run: seq<Action>, t: nat): nat {
    if run == [] then 0 else (if run[0].t == t then 1 else 0) + StepsOf(run[1..], t)
  }

  /** Whatever the schedule, a call under way takes at most `Ahead` more steps; and when
      nothing healthy is possible although every batch fits into its pipes, every call has
      returned and nothing is claimed. */
  lemma {:induction false} CallsAreBounded(s: State, run: seq<Action>, t: nat)
    requires Inv(s) && ValidRun(s, run) && t < |s.threads|
    requires forall a | a in run :: !Starts(a)
    ensures t < |After(s, run).threads|
    ensures StepsOf(run, t) + Ahead(After(s, run), After(s, run).threads[t]) <= Ahead(s, s.threads[t])
    ensures AllFit(After(s, run)) && (forall a | Enabled(After(s, run), a) :: !Healthy(a)) ==>
      After(s, run).threads[t].stage.Outside? && Claimed(After(s, run).threads[t]) == {}
    decreases |run|
  {
    hide Apply, Enabled, Inv, Ahead, ClaimsOk, SlotOk, AllFit, Healthy;
    if run != [] {
      assert run[0] in run;
      forall a | a in run[1..] ensures !Starts(a) {
        assert a in run;
      }
      StepKeepsInv(s, run[0]);
      EveryStepIsProgress(s, run[0], t);
      CallsAreBounded(Apply(s, run[0]), run[1..], t);
    } else {
      IdleWhenQuiet(s, t);
    }
  }

  lemma IdleWhenQuiet(s: State, t: nat)
    requires Inv(s) && t < |s.threads|
    ensures AllFit(s) && (forall a | Enabled(s, a) :: !Healthy(a)) ==>
      s.threads[t].stage.Outside? && Claimed(s.threads[t]) == {}
  {
    hide Enabled, Healthy;
    assert ThreadOk(s, t);
    if AllFit(s) && !s.threads[t].stage.Outside? {
      NeverStuck(s, t);
    }
  }

  // ------------------------------------------------------- left to a peer

  lemma OneMore(s: State, a: Action, rest: seq<Action>)
    requires Enabled(s, a) && ValidRun(Apply(s, a), rest)
    ensures ValidRun(s, [a] + rest) && After(s, [a] + rest) == After(Apply(s, a), rest)
  {
    hide Apply, Enabled;
    assert ([a] + rest)[1..] == rest;
  }

  /** A batch of what a peer is fetching returns at once: nothing was asked for it, no
      child exists even, and the peer still holds the claim. */
  lemma PeerSkipsAtOnce(o: Oid)
    ensures var run := [Prefetch(0, [o]), Prefetch(1, [o]), Claim(0), Claim(1)];
      && ValidRun(Init(1, 2, 1, 1), run)
      && var r := After(Init(1, 2, 1, 1), run);
         && |r.threads| == 2 && r.threads[1].stage == Settled(Lines([])) && r.threads[1].lead == []
         && r.inflight == {o} && |r.slots| == 1 && r.slots[0].child.None?
  {
    hide LeadOf, ValidRun;
    LeadOfOne(o, {});
    LeadOfOne(o, {o});
    var s := Init(1, 2, 1, 1);
    var s1 := Apply(s, Prefetch(0, [o]));
    var s2 := Apply(s1, Prefetch(1, [o]));
    var s3 := Apply(s2, Claim(0));
    assert s3.inflight == {o};
    EmptyRun(Apply(s3, Claim(1)));
    OneMore(s3, Claim(1), []);
    OneMore(s2, Claim(0), [Claim(1)] + []);
    OneMore(s1, Prefetch(1, [o]), [Claim(0)] + ([Claim(1)] + []));
    OneMore(s, Prefetch(0, [o]), [Prefetch(1, [o])] + ([Claim(0)] + ([Claim(1)] + [])));
    assert [Prefetch(0, [o]), Prefetch(1, [o]), Claim(0), Claim(1)]
      == [Prefetch(0, [o])] + ([Prefetch(1, [o])] + ([Claim(0)] + ([Claim(1)] + [])));
  }

  lemma EmptyRun(s: State)
    ensures ValidRun(s, []) && After(s, []) == s
  {
  }
}
