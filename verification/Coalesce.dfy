/** The single-flight coalescer as a transition system.

    Any number of threads call `do_or_join`. Every step below is one mutex section
    of that function (the in-flight map's lock or one slot's lock), a call, or the
    end of the leader's work, so a sequence of steps is one interleaving. */
module Coalesce {
  import opened Git

  datatype SlotState<V> = Pending | Done(result: Result<V, string>)

  /** `leader` and `removedAt` record the slot's history: who installed it, and the
      time at which it left the in-flight map. */
  datatype Slot<K, V> = Slot(key: K, leader: nat, state: SlotState<V>, removedAt: Option<nat>)

  /** Where a thread stands inside one call. */
  datatype Stage<V> =
    | Entering                                         // about to lock the in-flight map
    | Running(slot: nat)                               // leader, executing the work
    | Publishing(slot: nat, result: Result<V, string>) // leader, about to lock its slot
    | Removing(slot: nat, result: Result<V, string>)   // leader, about to lock the map again
    | Checking(slot: nat)                              // follower, about to lock the slot
    | Waiting(slot: nat)                               // follower, asleep on the condition variable
    | Returned(slot: nat, result: Result<V, string>)

  datatype Thread<K, V> = Idle | InCall(key: K, since: nat, stage: Stage<V>)

  datatype State<K, V> = State(
    inflight: map<K, nat>, slots: seq<Slot<K, V>>, threads: seq<Thread<K, V>>, clock: nat)

  datatype Action<K, V> =
    | Call(t: nat, key: K)
    | Enter(t: nat)
    | Finish(t: nat, result: Result<V, string>)
    | Publish(t: nat)
    | Remove(t: nat)
    | Check(t: nat)
    | SpuriousWake(t: nat)

  predicate Quiet<K, V>(th: Thread<K, V>) {
    th.Idle? || th.stage.Returned?
  }

  predicate Enabled<K, V>(s: State<K, V>, a: Action<K, V>) {
    && a.t < |s.threads|
    && var th := s.threads[a.t];
       match a
       case Call(_, _) => Quiet(th)
       case Enter(_) => th.InCall? && th.stage.Entering?
       case Finish(_, _) => th.InCall? && th.stage.Running?
       case Publish(_) => th.InCall? && th.stage.Publishing? && th.stage.slot < |s.slots|
       case Remove(_) => th.InCall? && th.stage.Removing? && th.stage.slot < |s.slots|
       case Check(_) => th.InCall? && th.stage.Checking? && th.stage.slot < |s.slots|
       case SpuriousWake(_) => th.InCall? && th.stage.Waiting?
  }

  /** `notify_all`: everyone asleep on slot `i` gets up and will re-check it. */
  function Notified<K, V>(th: Thread<K, V>, i: nat): Thread<K, V> {
    if th.InCall? && th.stage.Waiting? && th.stage.slot == i then th.(stage := Checking(i)) else th
  }

  function Apply<K, V>(s: State<K, V>, a: Action<K, V>): (r: State<K, V>)
    requires Enabled(s, a)
  {
    var th := s.threads[a.t];
    var next := s.(clock := s.clock + 1);
    match a
    case Call(t, key) =>
      next.(threads := s.threads[t := InCall(key, s.clock, Entering)])
    case Enter(t) =>
      if th.key in s.inflight then
        next.(threads := s.threads[t := th.(stage := Checking(s.inflight[th.key]))])
      else
        next.(inflight := s.inflight[th.key := |s.slots|],
              slots := s.slots + [Slot(th.key, t, Pending, None)],
              threads := s.threads[t := th.(stage := Running(|s.slots|))])
    case Finish(t, result) =>
      next.(threads := s.threads[t := th.(stage := Publishing(th.stage.slot, result))])
    case Publish(t) =>
      var i := th.stage.slot;
      var woken := seq(|s.threads|, j requires 0 <= j < |s.threads| => Notified(s.threads[j], i));
      next.(slots := s.slots[i := s.slots[i].(state := Done(th.stage.result))],
            threads := woken[t := th.(stage := Removing(i, th.stage.result))])
    case Remove(t) =>
      var i := th.stage.slot;
      next.(inflight := map k | k in s.inflight && k != th.key :: s.inflight[k],
            slots := s.slots[i := s.slots[i].(removedAt := Some(s.clock))],
            threads := s.threads[t := th.(stage := Returned(i, th.stage.result))])
    case Check(t) =>
      var i := th.stage.slot;
      next.(threads := s.threads[t := th.(stage :=
        match s.slots[i].state
        case Pending => Waiting(i)
        case Done(r) => Returned(i, r))])
    case SpuriousWake(t) =>
      next.(threads := s.threads[t := th.(stage := Checking(th.stage.slot))])
  }

  function Init<K, V>(n: nat): State<K, V> {
    State(map[], [], seq(n, _ => Idle), 0)
  }

  /** Every prefix of `run` is enabled where it is taken. */
  predicate ValidRun<K, V>(s: State<K, V>, run: seq<Action<K, V>>)
    decreases |run|
  {
    run == [] || (Enabled(s, run[0]) && ValidRun(Apply(s, run[0]), run[1..]))
  }

  function After<K, V>(s: State<K, V>, run: seq<Action<K, V>>): State<K, V>
    requires ValidRun(s, run)
    decreases |run|
  {
    if run == [] then s else After(Apply(s, run[0]), run[1..])
  }

  // ---------------------------------------------------------------- invariant

  /** The thread installed slot `i` and has not removed it yet. */
  predicate Leads<K, V>(th: Thread<K, V>, i: nat) {
    th.InCall? && (th.stage.Running? || th.stage.Publishing? || th.stage.Removing?) && th.stage.slot == i
  }

  ghost predicate ThreadOk<K, V>(s: State<K, V>, t: nat)
    requires t < |s.threads|
  {
    match s.threads[t]
    case Idle => true
    case InCall(key, since, stage) =>
      && since < s.clock
      && (stage.Entering? || (stage.slot < |s.slots| &&
        var slot := s.slots[stage.slot];
        && slot.key == key
        && (slot.removedAt.Some? ==> since < slot.removedAt.value)
        && match stage
           case Entering => true
           case Running(_) => slot.leader == t && slot.removedAt.None? && slot.state.Pending?
           case Publishing(_, _) => slot.leader == t && slot.removedAt.None? && slot.state.Pending?
           case Removing(_, r) => slot.leader == t && slot.removedAt.None? && slot.state == Done(r)
           case Checking(_) => true
           case Waiting(_) => slot.state.Pending?
           case Returned(_, r) => slot.state == Done(r)))
  }

  ghost predicate SlotOk<K, V>(s: State<K, V>, i: nat)
    requires i < |s.slots|
  {
    var slot := s.slots[i];
    match slot.removedAt
    case None =>
      && slot.key in s.inflight && s.inflight[slot.key] == i
      && slot.leader < |s.threads| && Leads(s.threads[slot.leader], i)
    case Some(w) => w < s.clock && slot.state.Done?
  }

  ghost predicate MapOk<K, V>(s: State<K, V>) {
    forall k | k in s.inflight ::
      && s.inflight[k] < |s.slots|
      && s.slots[s.inflight[k]].key == k
      && s.slots[s.inflight[k]].removedAt.None?
  }

  ghost predicate Inv<K(!new), V(!new)>(s: State<K, V>) {
    && MapOk(s)
    && (forall i | 0 <= i < |s.slots| :: SlotOk(s, i))
    && (forall t | 0 <= t < |s.threads| :: ThreadOk(s, t))
  }

  lemma {:induction false} StepKeepsSlot<K(!new), V(!new)>(s: State<K, V>, a: Action<K, V>, i: nat)
    requires Inv(s) && Enabled(s, a)
    requires i < |Apply(s, a).slots|
    ensures SlotOk(Apply(s, a), i)
  {
    assert ThreadOk(s, a.t);
    if a.Remove? {
      assert SlotOk(s, s.threads[a.t].stage.slot);
    }
    if i < |s.slots| {
      assert SlotOk(s, i);
      if s.slots[i].removedAt.None? {
        assert ThreadOk(s, s.slots[i].leader);
      }
    }
  }

  lemma {:induction false} StepKeepsThread<K(!new), V(!new)>(s: State<K, V>, a: Action<K, V>, t: nat)
    requires Inv(s) && Enabled(s, a)
    requires t < |Apply(s, a).threads|
    ensures ThreadOk(Apply(s, a), t)
  {
    assert ThreadOk(s, a.t) && ThreadOk(s, t);
    if a.Remove? {
      assert SlotOk(s, s.threads[a.t].stage.slot);
    }
  }

  lemma {:induction false} StepKeepsMap<K(!new), V(!new)>(s: State<K, V>, a: Action<K, V>)
    requires Inv(s) && Enabled(s, a)
    ensures MapOk(Apply(s, a))
  {
    assert ThreadOk(s, a.t);
    if a.Remove? {
      assert SlotOk(s, s.threads[a.t].stage.slot);
    }
  }

  lemma {:induction false} StepKeepsInv<K(!new), V(!new)>(s: State<K, V>, a: Action<K, V>)
    requires Inv(s) && Enabled(s, a)
    ensures Inv(Apply(s, a))
  {
    hide Apply, Enabled, SlotOk, ThreadOk, MapOk;
    var n := Apply(s, a);
    StepKeepsMap(s, a);
    forall i | 0 <= i < |n.slots| ensures SlotOk(n, i) {
      StepKeepsSlot(s, a, i);
    }
    forall t | 0 <= t < |n.threads| ensures ThreadOk(n, t) {
      StepKeepsThread(s, a, t);
    }
  }

  lemma {:induction false} RunKeepsInv<K(!new), V(!new)>(s: State<K, V>, run: seq<Action<K, V>>)
    requires Inv(s) && ValidRun(s, run)
    ensures Inv(After(s, run))
    decreases |run|
  {
    if run != [] {
      StepKeepsInv(s, run[0]);
      RunKeepsInv(Apply(s, run[0]), run[1..]);
    }
  }

  // ------------------------------------------------------------------ results

  lemma ReachableInv<K(!new), V(!new)>(n: nat, run: seq<Action<K, V>>)
    requires ValidRun(Init<K, V>(n), run)
    ensures Inv(After(Init<K, V>(n), run))
  {
    RunKeepsInv(Init<K, V>(n), run);
  }

  /** Between installing its slot and removing it again. */
  ghost predicate LeadsKey<K, V>(th: Thread<K, V>, key: K) {
    th.InCall? && th.key == key && (th.stage.Running? || th.stage.Publishing? || th.stage.Removing?)
  }

  /** At most one thread is between installing and removing a slot of a given key, so
      the work for a key never runs twice at once, and a key is in the map exactly
      while it has such a leader, whose slot is the one the map names. */
  lemma {:induction false} SingleFlight<K(!new), V(!new)>(n: nat, run: seq<Action<K, V>>, key: K)
    requires ValidRun(Init<K, V>(n), run)
    ensures var s := After(Init<K, V>(n), run);
      && (forall t, u | 0 <= t < |s.threads| && 0 <= u < |s.threads|
            && LeadsKey(s.threads[t], key) && LeadsKey(s.threads[u], key) :: t == u)
      && (key in s.inflight <==> exists t :: 0 <= t < |s.threads| && LeadsKey(s.threads[t], key))
      && (forall t | 0 <= t < |s.threads| && LeadsKey(s.threads[t], key) ::
            key in s.inflight && s.inflight[key] == s.threads[t].stage.slot)
  {
    ReachableInv(n, run);
    var s := After(Init<K, V>(n), run);
    forall t | 0 <= t < |s.threads| && LeadsKey(s.threads[t], key)
      ensures key in s.inflight && s.inflight[key] == s.threads[t].stage.slot
      ensures s.slots[s.threads[t].stage.slot].leader == t
    {
      assert ThreadOk(s, t);
      assert SlotOk(s, s.threads[t].stage.slot);
    }
    if key in s.inflight {
      var i := s.inflight[key];
      assert SlotOk(s, i);
      assert ThreadOk(s, s.slots[i].leader);
      assert LeadsKey(s.threads[s.slots[i].leader], key);
    }
  }

  /** A call that returns hands back what its slot's leader produced: calls that
      shared a slot agree, and each one started before that slot left the map, so a
      call starting later never sees that result. */
  lemma {:induction false} ResultsAreShared<K(!new), V(!new)>(n: nat, run: seq<Action<K, V>>, t: nat)
    requires ValidRun(Init<K, V>(n), run)
    requires t < |After(Init<K, V>(n), run).threads|
    requires var th := After(Init<K, V>(n), run).threads[t]; th.InCall? && th.stage.Returned?
    ensures var s := After(Init<K, V>(n), run);
      var th := s.threads[t];
      && th.stage.slot < |s.slots|
      && s.slots[th.stage.slot].key == th.key
      && s.slots[th.stage.slot].state == Done(th.stage.result)
      && (s.slots[th.stage.slot].removedAt.Some? ==> th.since < s.slots[th.stage.slot].removedAt.value)
      && (forall u | 0 <= u < |s.threads| && s.threads[u].InCall? && s.threads[u].stage.Returned?
            && s.threads[u].stage.slot == th.stage.slot ::
            s.threads[u].stage.result == th.stage.result && s.threads[u].key == th.key)
  {
    ReachableInv(n, run);
    var s := After(Init<K, V>(n), run);
    assert ThreadOk(s, t);
    forall u | 0 <= u < |s.threads| && s.threads[u].InCall? && s.threads[u].stage.Returned?
      && s.threads[u].stage.slot == s.threads[t].stage.slot
      ensures s.threads[u].stage.result == s.threads[t].stage.result && s.threads[u].key == s.threads[t].key
    {
      assert ThreadOk(s, u);
    }
  }

  /** A published result is final: no later step changes it, so what a follower
      reads is what the leader of that very slot stored. */
  lemma {:induction false} PublishedIsFinal<K(!new), V(!new)>(s: State<K, V>, run: seq<Action<K, V>>, i: nat)
    requires Inv(s) && ValidRun(s, run)
    requires i < |s.slots|
    ensures var e := After(s, run);
      && i < |e.slots|
      && e.slots[i].key == s.slots[i].key && e.slots[i].leader == s.slots[i].leader
      && (s.slots[i].state.Done? ==> e.slots[i].state == s.slots[i].state)
      && (s.slots[i].removedAt.Some? ==> e.slots[i].removedAt == s.slots[i].removedAt)
    decreases |run|
  {
    if run != [] {
      assert ThreadOk(s, run[0].t);
      StepKeepsInv(s, run[0]);
      PublishedIsFinal(Apply(s, run[0]), run[1..], i);
    }
  }

  /** Steps the scheduler can take without a new call or a spurious wake-up. */
  ghost predicate Productive<K, V>(a: Action<K, V>) {
    !a.Call? && !a.SpuriousWake?
  }

  ghost predicate Unfinished<K, V>(th: Thread<K, V>) {
    th.InCall? && !th.stage.Returned?
  }

  /** No lost wake-up: while any call is unfinished, some productive step is enabled.
      A sleeping follower's slot is still pending, so its leader can move. */
  lemma {:induction false} NeverStuck<K(!new), V(!new)>(s: State<K, V>, t: nat, any: Result<V, string>)
    requires Inv(s)
    requires t < |s.threads| && Unfinished(s.threads[t])
    ensures exists a: Action<K, V> :: Productive(a) && Enabled(s, a)
  {
    assert ThreadOk(s, t);
    var u := t;
    if s.threads[t].stage.Waiting? {
      var i := s.threads[t].stage.slot;
      assert SlotOk(s, i);
      u := s.slots[i].leader;
      assert ThreadOk(s, u);
    }
    var a: Action<K, V> := match s.threads[u].stage
      case Entering => Enter(u)
      case Running(_) => Finish(u, any)
      case Publishing(_, _) => Publish(u)
      case Removing(_, _) => Remove(u)
      case _ => Check(u);
    assert Productive(a) && Enabled(s, a);
  }

  /** Productive steps a thread still has ahead of it, counting the publication of
      the slot it follows as progress. */
  ghost function Ahead<K, V>(s: State<K, V>, th: Thread<K, V>): nat {
    if th.Idle? then 0 else
    match th.stage
    case Entering => 4
    case Running(_) => 3
    case Publishing(_, _) => 2
    case Removing(_, _) => 1
    case Checking(i) => if i < |s.slots| && s.slots[i].state.Done? then 1 else 3
    case Waiting(_) => 2
    case Returned(_, _) => 0
  }

  ghost function Remaining<K, V>(s: State<K, V>, upTo: nat): nat
    requires upTo <= |s.threads|
  {
    if upTo == 0 then 0 else Remaining(s, upTo - 1) + Ahead(s, s.threads[upTo - 1])
  }

  lemma {:induction false} RemainingDrops<K(!new), V(!new)>(s: State<K, V>, r: State<K, V>, upTo: nat, t: nat)
    requires upTo <= |s.threads| == |r.threads|
    requires forall u | 0 <= u < upTo :: Ahead(r, r.threads[u]) <= Ahead(s, s.threads[u])
    requires t < upTo ==> Ahead(r, r.threads[t]) < Ahead(s, s.threads[t])
    ensures Remaining(r, upTo) <= Remaining(s, upTo)
    ensures t < upTo ==> Remaining(r, upTo) < Remaining(s, upTo)
  {
    if upTo != 0 {
      RemainingDrops(s, r, upTo - 1, t);
    }
  }

  /** Every productive step strictly decreases the work ahead of all threads together. */
  lemma {:induction false} ProductiveStepDescends<K(!new), V(!new)>(s: State<K, V>, a: Action<K, V>)
    requires Inv(s) && Enabled(s, a) && Productive(a)
    ensures Remaining(Apply(s, a), |s.threads|) < Remaining(s, |s.threads|)
  {
    var r := Apply(s, a);
    assert ThreadOk(s, a.t);
    forall u | 0 <= u < |s.threads|
      ensures Ahead(r, r.threads[u]) <= Ahead(s, s.threads[u])
      ensures u == a.t ==> Ahead(r, r.threads[u]) < Ahead(s, s.threads[u])
    {
      assert ThreadOk(s, u);
    }
    RemainingDrops(s, r, |s.threads|, a.t);
  }

  /** Once no new call arrives, at most `Remaining` further productive steps exist. */
  lemma {:induction false} RunsAreBounded<K(!new), V(!new)>(s: State<K, V>, run: seq<Action<K, V>>)
    requires Inv(s) && ValidRun(s, run)
    requires forall a | a in run :: Productive(a)
    ensures |After(s, run).threads| == |s.threads|
    ensures |run| + Remaining(After(s, run), |s.threads|) <= Remaining(s, |s.threads|)
    decreases |run|
  {
    if run != [] {
      assert run[0] in run;
      ProductiveStepDescends(s, run[0]);
      StepKeepsInv(s, run[0]);
      assert forall a | a in run[1..] :: a in run;
      RunsAreBounded(Apply(s, run[0]), run[1..]);
    }
  }

  /** When no productive step is left, every call has returned and the in-flight map
      is empty. */
  lemma {:induction false} QuiescentMeansDone<K(!new), V(!new)>(n: nat, run: seq<Action<K, V>>, any: Result<V, string>)
    requires ValidRun(Init<K, V>(n), run)
    requires forall a: Action<K, V> :: Productive(a) ==> !Enabled(After(Init<K, V>(n), run), a)
    ensures var s := After(Init<K, V>(n), run);
      && (forall t | 0 <= t < |s.threads| :: Quiet(s.threads[t]))
      && s.inflight == map[]
  {
    ReachableInv(n, run);
    var s := After(Init<K, V>(n), run);
    forall t | 0 <= t < |s.threads| ensures Quiet(s.threads[t]) {
      if Unfinished(s.threads[t]) {
        NeverStuck(s, t, any);
      }
    }
    NoLeak(n, run);
  }

  /** When every call has returned the in-flight map is empty. */
  lemma {:induction false} NoLeak<K(!new), V(!new)>(n: nat, run: seq<Action<K, V>>)
    requires ValidRun(Init<K, V>(n), run)
    requires forall t | 0 <= t < |After(Init<K, V>(n), run).threads| :: Quiet(After(Init<K, V>(n), run).threads[t])
    ensures After(Init<K, V>(n), run).inflight == map[]
  {
    var s := After(Init<K, V>(n), run);
    forall k ensures k !in s.inflight {
      SingleFlight(n, run, k);
    }
  }

  /** The outcome `r` of the work on slot `i` is either stored or about to be. */
  ghost predicate Decided<K, V>(s: State<K, V>, i: nat, r: Result<V, string>) {
    && i < |s.slots|
    && (s.slots[i].state.Pending? ==>
        && s.slots[i].leader < |s.threads|
        && s.threads[s.slots[i].leader].InCall?
        && s.threads[s.slots[i].leader].stage == Publishing(i, r))
    && (s.slots[i].state.Done? ==> s.slots[i].state.result == r)
  }

  lemma {:induction false} StaysDecided<K(!new), V(!new)>(
      s: State<K, V>, run: seq<Action<K, V>>, i: nat, r: Result<V, string>)
    requires Inv(s) && ValidRun(s, run) && Decided(s, i, r)
    ensures Decided(After(s, run), i, r)
    decreases |run|
  {
    if run != [] {
      assert ThreadOk(s, run[0].t);
      StepKeepsInv(s, run[0]);
      StaysDecided(Apply(s, run[0]), run[1..], i, r);
    }
  }

  /** What the leader's work produced is what every call on that slot returns, the
      leader's own included, however the run goes on. */
  lemma {:induction false} EveryoneGetsTheLeadersResult<K(!new), V(!new)>(
      s: State<K, V>, t: nat, r: Result<V, string>, run: seq<Action<K, V>>, u: nat)
    requires Inv(s) && Enabled(s, Action<K, V>.Finish(t, r))
    requires ValidRun(Apply(s, Action<K, V>.Finish(t, r)), run)
    requires var e := After(Apply(s, Action<K, V>.Finish(t, r)), run);
      && u < |e.threads| && e.threads[u].InCall?
      && e.threads[u].stage.Returned? && e.threads[u].stage.slot == s.threads[t].stage.slot
    ensures After(Apply(s, Action<K, V>.Finish(t, r)), run).threads[u].stage.result == r
  {
    var f := Action<K, V>.Finish(t, r);
    assert ThreadOk(s, t);
    StepKeepsInv(s, f);
    StaysDecided(Apply(s, f), run, s.threads[t].stage.slot, r);
    RunKeepsInv(Apply(s, f), run);
    assert ThreadOk(After(Apply(s, f), run), u);
  }
}
