/** The daemon: one source for its lifetime, a table of mounts, and the object requests
    of its sidecars. */
module Daemon {
  import opened Git
  import opened Probes
  import opened Wire
  import opened Sequences
  import opened GitCli
  import opened Hydrate

  const MOUNT_FAILED := "mount_failed"
  const MOUNTPOINT_BUSY := "mountpoint_busy"
  const NO_SUCH_MOUNT := "no_such_mount"
  const SOURCE_OPEN_FAILED := "source_open_failed"
  const REF_RESOLVE_FAILED := "ref_resolve_failed"

  datatype Mount = Mount(refName: string, projectionId: nat)

  datatype Repo = Repo(source: string, gitDir: string, mounts: map<string, Mount>)

  datatype Registry = Registry(active: Option<Repo>, nextId: nat)

  /** A request to the table, with what the world answers: the canonical path of the mount
      point, the git directory if the source opens, and whether the overlay and the
      mount itself succeed. */
  datatype Request =
    | MountReq(source: string, refName: string, mountpoint: Option<string>, gitDir: Option<string>, overlayOk: bool, mountOk: bool)
    | UmountReq(mountpoint: Option<string>)
    | AttachReq(source: string, gitDir: Option<string>)

  datatype Answer = Done | Attached(gitDir: string) | Failed(code: string)

  /** Bind to a source if not bound yet. */
  function Bind(r: Registry, source: string, gitDir: Option<string>): Option<Registry> {
    if r.active.Some? then Some(r)
    else if gitDir.Some? then Some(r.(active := Some(Repo(source, gitDir.value, map[]))))
    else None
  }

  function Step(r: Registry, q: Request): (Registry, Answer) {
    match q
    case MountReq(source, refName, mountpoint, gitDir, overlayOk, mountOk) =>
      if mountpoint.None? then (r, Failed(MOUNT_FAILED)) else
      var bound := Bind(r, source, gitDir);
      if bound.None? then (r, Failed(SOURCE_OPEN_FAILED)) else
      var b := bound.value;
      var repo := b.active.value;
      if repo.source != source then (b, Failed(SOURCE_MISMATCH))
      else if mountpoint.value in repo.mounts then (b, Failed(MOUNTPOINT_BUSY))
      else if !overlayOk then (b, Failed(REF_RESOLVE_FAILED))
      else if !mountOk then (b.(nextId := b.nextId + 1), Failed(MOUNT_FAILED))
      else
        var mounts := repo.mounts[mountpoint.value := Mount(refName, b.nextId)];
        (Registry(Some(repo.(mounts := mounts)), b.nextId + 1), Done)
    case UmountReq(mountpoint) =>
      if mountpoint.None? || r.active.None? || mountpoint.value !in r.active.value.mounts then (r, Failed(NO_SUCH_MOUNT))
      else (r.(active := Some(r.active.value.(mounts := r.active.value.mounts - {mountpoint.value}))), Done)
    case AttachReq(source, gitDir) =>
      var bound := Bind(r, source, gitDir);
      if bound.None? then (r, Failed(SOURCE_OPEN_FAILED))
      else if bound.value.active.value.source != source then (bound.value, Failed(SOURCE_MISMATCH))
      else (bound.value, Attached(bound.value.active.value.gitDir))
  }

  function After(r: Registry, run: seq<Request>): Registry
    decreases |run|
  {
    if run == [] then r else After(Step(r, run[0]).0, run[1..])
  }

  function Fresh(): Registry {
    Registry(None, 1)
  }

  /** Identifiers in use are distinct and below the next one to be given out. */
  ghost predicate IdsOk(r: Registry) {
    && r.nextId >= 1
    && (r.active.Some? ==>
          var m := r.active.value.mounts;
          && (forall p | p in m :: 1 <= m[p].projectionId < r.nextId)
          && (forall p, q | p in m && q in m && p != q :: m[p].projectionId != m[q].projectionId))
  }

  /** Over any run: identifiers are never shared, not even with a mount that is long gone,
      and the first source bound is the only one ever. */
  lemma {:induction false} RunKeepsTheTable(r: Registry, run: seq<Request>)
    requires IdsOk(r)
    ensures IdsOk(After(r, run)) && r.nextId <= After(r, run).nextId
    ensures r.active.Some? ==>
      var e := After(r, run).active;
      e.Some? && e.value.source == r.active.value.source && e.value.gitDir == r.active.value.gitDir
    ensures r.active.Some? ==>
      forall p | p in After(r, run).active.value.mounts ::
        var m := After(r, run).active.value.mounts[p];
        m.projectionId >= r.nextId || (p in r.active.value.mounts && r.active.value.mounts[p] == m)
    decreases |run|
  {
    if run != [] {
      StepKeepsTheTable(r, run[0]);
      RunKeepsTheTable(Step(r, run[0]).0, run[1..]);
    }
  }

  /** One step: identifiers stay apart, the source stays, mounts are new or as they were. */
  ghost predicate TableKept(r: Registry, e: Registry) {
    && IdsOk(e) && r.nextId <= e.nextId
    && (r.active.Some? ==>
          && e.active.Some? && e.active.value.source == r.active.value.source && e.active.value.gitDir == r.active.value.gitDir
          && forall p | p in e.active.value.mounts ::
               e.active.value.mounts[p].projectionId >= r.nextId
               || (p in r.active.value.mounts && r.active.value.mounts[p] == e.active.value.mounts[p]))
  }

  lemma StepKeepsTheTable(r: Registry, q: Request)
    requires IdsOk(r)
    ensures TableKept(r, Step(r, q).0)
  {
    hide TableKept, IdsOk;
    match q
    case MountReq(source, refName, mountpoint, gitDir, _, _) =>
      BindKeeps(r, source, gitDir);
      if Bind(r, source, gitDir).Some? && mountpoint.Some? {
        MountKeeps(r, Bind(r, source, gitDir).value, mountpoint.value, refName);
      }
    case UmountReq(mountpoint) =>
      UmountKeeps(r, mountpoint);
    case AttachReq(source, gitDir) => BindKeeps(r, source, gitDir);
  }

  lemma BindKeeps(r: Registry, source: string, gitDir: Option<string>)
    requires IdsOk(r)
    ensures TableKept(r, r)
    ensures Bind(r, source, gitDir).Some? ==> TableKept(r, Bind(r, source, gitDir).value)
  {
  }

  lemma MountKeeps(r: Registry, b: Registry, p: string, refName: string)
    requires TableKept(r, b) && b.active.Some?
    ensures TableKept(r, b.(nextId := b.nextId + 1))
    ensures var mounts := b.active.value.mounts[p := Mount(refName, b.nextId)];
      TableKept(r, Registry(Some(b.active.value.(mounts := mounts)), b.nextId + 1))
  {
  }

  lemma UmountKeeps(r: Registry, p: Option<string>)
    requires IdsOk(r)
    ensures TableKept(r, Step(r, UmountReq(p)).0)
  {
  }

  /** Unmounting right after mounting leaves the table as it was but for the spent identifier. */
  lemma UmountUndoesMount(r: Registry, q: Request)
    requires q.MountReq? && r.active.Some? && Step(r, q).1 == Done
    ensures var mounted := Step(r, q).0;
      Step(mounted, UmountReq(q.mountpoint)) == (r.(nextId := r.nextId + 1), Done)
  {
    var repo := r.active.value;
    var p := q.mountpoint.value;
    assert repo.mounts[p := Mount(q.refName, r.nextId)] - {p} == repo.mounts;
  }

  /** Whether the table has something mounted at `p`. */
  predicate Busy(r: Registry, p: string) {
    r.active.Some? && p in r.active.value.mounts
  }

  /** The i-th request of a run as the table answers it. */
  function AnswerAt(r: Registry, run: seq<Request>, i: nat): Answer
    requires i < |run|
    decreases |run|
  {
    if i == 0 then Step(r, run[0]).1 else AnswerAt(Step(r, run[0]).0, run[1..], i - 1)
  }

  /** Request `i` succeeded, mounting at `p`; and the same for unmounting. */
  ghost predicate Mounts(r: Registry, run: seq<Request>, i: nat, p: string) {
    i < |run| && run[i].MountReq? && run[i].mountpoint == Some(p) && AnswerAt(r, run, i) == Done
  }

  ghost predicate Unmounts(r: Registry, run: seq<Request>, i: nat, p: string) {
    i < |run| && run[i] == UmountReq(Some(p)) && AnswerAt(r, run, i) == Done
  }

  /** A successful mount at `p` with no successful unmount after it. */
  ghost predicate MountedSince(r: Registry, run: seq<Request>, i: nat, p: string) {
    Mounts(r, run, i, p) && forall j | i < j < |run| :: !Unmounts(r, run, j, p)
  }

  ghost predicate NeverUnmounted(r: Registry, run: seq<Request>, p: string) {
    forall j | 0 <= j < |run| :: !Unmounts(r, run, j, p)
  }

  /** A mount point is taken exactly from a successful mount to its unmount: after any run
      it is busy if and only if it was mounted and not unmounted since, or was busy to
      begin with and never unmounted. */
  lemma {:induction false} BusyIffMounted(r: Registry, run: seq<Request>, p: string)
    ensures Busy(After(r, run), p) <==>
      (exists i :: MountedSince(r, run, i, p)) || (Busy(r, p) && NeverUnmounted(r, run, p))
    decreases |run|
  {
    if run != [] {
      BusyIffMounted(Step(r, run[0]).0, run[1..], p);
      StepMovesBusy(r, run[0], p);
      OneRequestEarlier(r, run, p);
    }
  }

  /** What a run's first request adds to what the rest of the run did. */
  lemma {:induction false} OneRequestEarlier(r: Registry, run: seq<Request>, p: string)
    requires run != []
    ensures var next, rest := Step(r, run[0]).0, run[1..];
      && (NeverUnmounted(r, run, p) <==> !Unmounts(r, run, 0, p) && NeverUnmounted(next, rest, p))
      && ((exists i :: MountedSince(r, run, i, p)) <==>
            (exists i :: MountedSince(next, rest, i, p)) || (Mounts(r, run, 0, p) && NeverUnmounted(next, rest, p)))
  {
    var next, rest := Step(r, run[0]).0, run[1..];
    forall j: nat | j > 0 ensures Unmounts(r, run, j, p) <==> Unmounts(next, rest, j - 1, p) {
    }
    forall j: nat ensures Unmounts(next, rest, j, p) <==> Unmounts(r, run, j + 1, p) {
    }
    if i: nat :| MountedSince(next, rest, i, p) {
      assert Mounts(r, run, i + 1, p);
      assert MountedSince(r, run, i + 1, p);
    } else if Mounts(r, run, 0, p) && NeverUnmounted(next, rest, p) {
      assert MountedSince(r, run, 0, p);
    }
    if i: nat :| MountedSince(r, run, i, p) {
      if i > 0 {
        assert MountedSince(next, rest, i - 1, p);
      } else {
        forall j | 0 <= j < |rest| ensures !Unmounts(next, rest, j, p) {
          assert !Unmounts(r, run, j + 1, p);
        }
      }
    }
  }

  lemma StepMovesBusy(r: Registry, q: Request, p: string)
    ensures Busy(Step(r, q).0, p) <==>
      || (q.MountReq? && q.mountpoint == Some(p) && Step(r, q).1 == Done)
      || (Busy(r, p) && !(q == UmountReq(Some(p)) && Step(r, q).1 == Done))
  {
  }

  /** When a mount succeeds, from a fresh daemon and after any run: everything outside
      answers, the bound source is the one asked for, and the mount point is not taken by
      an earlier mount still standing. */
  lemma {:induction false} MountSucceedsIff(run: seq<Request>, q: Request)
    requires q.MountReq?
    ensures var r := After(Fresh(), run);
      Step(r, q).1 == Done <==>
        && q.mountpoint.Some? && q.overlayOk && q.mountOk
        && (if r.active.Some? then r.active.value.source == q.source else q.gitDir.Some?)
        && !exists i :: MountedSince(Fresh(), run, i, q.mountpoint.value)
  {
    if q.mountpoint.Some? {
      BusyIffMounted(Fresh(), run, q.mountpoint.value);
    }
  }

  /** Request `q` would bind a source: it names one that opens, and a mount also a mount
      point that exists. */
  predicate Binds(q: Request) {
    match q
    case MountReq(_, _, mountpoint, gitDir, _, _) => mountpoint.Some? && gitDir.Some?
    case AttachReq(_, gitDir) => gitDir.Some?
    case UmountReq(_) => false
  }

  /** Request `i` is the first of a run that does. */
  ghost predicate BindsFirst(run: seq<Request>, i: nat) {
    i < |run| && Binds(run[i]) && forall j | 0 <= j < i :: !Binds(run[j])
  }

  /** The bound source is the one of the first request that could bind one, and stays. */
  lemma {:induction false} BoundByTheFirst(run: seq<Request>, i: nat)
    requires BindsFirst(run, i)
    ensures var e := After(Fresh(), run).active;
      e.Some? && e.value.source == run[i].source && Some(e.value.gitDir) == run[i].gitDir
  {
    UnboundUntil(Fresh(), run, i);
    RunSplits(Fresh(), run, i);
    var r := After(Fresh(), run[..i]);
    RunKeepsTheTable(Fresh(), run[..i]);
    StepKeepsTheTable(r, run[i]);
    assert run[i..][0] == run[i] && run[i..][1..] == run[i + 1..];
    RunKeepsTheTable(Step(r, run[i]).0, run[i + 1..]);
  }

  lemma {:induction false} UnboundUntil(r: Registry, run: seq<Request>, n: nat)
    requires r.active.None? && n <= |run| && forall j | 0 <= j < n :: !Binds(run[j])
    ensures After(r, run[..n]).active.None?
    decreases n
  {
    if n > 0 {
      assert run[..n][1..] == run[1..][..n - 1];
      forall j | 0 <= j < n - 1 ensures !Binds(run[1..][j]) {
        assert run[1..][j] == run[j + 1];
      }
      UnboundUntil(Step(r, run[0]).0, run[1..], n - 1);
    }
  }

  lemma {:induction false} RunSplits(r: Registry, run: seq<Request>, n: nat)
    requires n <= |run|
    ensures After(r, run) == After(After(r, run[..n]), run[n..])
    decreases n
  {
    if n == 0 {
      assert run[..0] == [] && run[0..] == run;
    } else {
      assert run[..n][1..] == run[1..][..n - 1] && run[1..][n - 1..] == run[n..];
      RunSplits(Step(r, run[0]).0, run[1..], n - 1);
    }
  }

  lemma {:induction false} FirstBinding(run: seq<Request>)
    ensures (exists i: nat :: BindsFirst(run, i)) || (forall j | 0 <= j < |run| :: !Binds(run[j]))
  {
    if run != [] {
      var n := |run| - 1;
      FirstBinding(run[..n]);
      if i: nat :| BindsFirst(run[..n], i) {
        assert BindsFirst(run, i);
      } else {
        assert forall j | 0 <= j < n :: run[..n][j] == run[j];
        assert Binds(run[n]) ==> BindsFirst(run, n);
      }
    }
  }

  /** When attaching succeeds, from a fresh daemon and after any run, and with which git
      directory: the source is the one the first binding request named, or nothing was
      bound yet and it opens. */
  lemma {:induction false} AttachSucceedsIff(run: seq<Request>, q: Request, dir: string)
    requires q.AttachReq?
    ensures Step(After(Fresh(), run), q).1 == Attached(dir) <==>
      if exists i: nat :: BindsFirst(run, i) then
        exists i: nat :: BindsFirst(run, i) && run[i].source == q.source && run[i].gitDir == Some(dir)
      else q.gitDir == Some(dir)
  {
    hide After, Binds, BindsFirst;
    FirstBinding(run);
    if i: nat :| BindsFirst(run, i) {
      BoundByTheFirst(run, i);
      forall j: nat | BindsFirst(run, j) ensures j == i {
        OneFirst(run, i, j);
      }
    } else {
      UnboundUntil(Fresh(), run, |run|);
      assert run[..|run|] == run;
    }
  }

  lemma OneFirst(run: seq<Request>, i: nat, j: nat)
    requires BindsFirst(run, i) && BindsFirst(run, j)
    ensures i == j
  {
  }

  /** Why a mount is refused, by its code: the checks come in this order. */
  lemma {:induction false} MountRefusedWith(run: seq<Request>, q: Request)
    requires q.MountReq?
    ensures var r := After(Fresh(), run);
      var bound := r.active.Some? || q.gitDir.Some?;
      var ours := r.active.Some? ==> r.active.value.source == q.source;
      var taken := q.mountpoint.Some? && exists i :: MountedSince(Fresh(), run, i, q.mountpoint.value);
      match Step(r, q).1
      case Failed(code) =>
        if q.mountpoint.None? then code == "mount_failed"
        else if !bound then code == "source_open_failed"
        else if !ours then code == "source_mismatch"
        else if taken then code == "mountpoint_busy"
        else if !q.overlayOk then code == "ref_resolve_failed"
        else !q.mountOk && code == "mount_failed"
      case Done => q.mountpoint.Some? && bound && ours && !taken && q.overlayOk && q.mountOk
      case Attached(_) => false
  {
    if q.mountpoint.Some? {
      BusyIffMounted(Fresh(), run, q.mountpoint.value);
    }
  }

  class DaemonState {
    var registry: Registry
    /** The hydrating store of the bound source. */
    var h: HydratingStore?

    ghost function Footprint(): set<object>
      reads this
    {
      if h == null then {} else h.Footprint()
    }

    ghost predicate Valid()
      reads this, Footprint()
    {
      && IdsOk(registry)
      && (registry.active.Some? <==> h != null)
      && (h != null ==> this !in h.Footprint() && h.Valid())
    }

    /** What is in the bound source's database, and what a caller has sent to its git. */
    ghost function Resident(): set<Oid>
      reads this, Footprint()
    {
      if h == null then {} else h.store.resident
    }

    ghost function Sent(me: nat): seq<Event>
      reads this, Footprint()
    {
      if h == null then [] else h.Sent(me)
    }

    constructor ()
      ensures Valid() && registry == Fresh()
    {
      registry, h := Fresh(), null;
    }

    /** `handle_mount`, `handle_umount` and `handle_attach`: one step of the table under its
        lock. `store` is what opening the source gave, when it opened. */
    method Handle(q: Request, store: HydratingStore) returns (a: Answer)
      requires Valid() && store.Valid() && this !in store.Footprint()
      modifies this
      ensures Valid() && (registry, a) == Step(old(registry), q)
      ensures h == if old(h) == null && registry.active.Some? then store else old(h)
    {
      hide HydratingStore.Valid, IdsOk;
      StepKeepsTheTable(registry, q);
      match q {
        case MountReq(source, refName, mountpoint, gitDir, overlayOk, mountOk) =>
          if mountpoint.None? {
            return Failed(MOUNT_FAILED);
          }
          var bound := BindTo(source, gitDir, store);
          if !bound {
            return Failed(SOURCE_OPEN_FAILED);
          }
          a := AddMount(source, refName, mountpoint.value, overlayOk, mountOk);
        case UmountReq(mountpoint) =>
          if mountpoint.None? || registry.active.None? || mountpoint.value !in registry.active.value.mounts {
            return Failed(NO_SUCH_MOUNT);
          }
          var repo := registry.active.value;
          registry := registry.(active := Some(repo.(mounts := repo.mounts - {mountpoint.value})));
          a := Done;
        case AttachReq(source, gitDir) =>
          var bound := BindTo(source, gitDir, store);
          if !bound {
            return Failed(SOURCE_OPEN_FAILED);
          }
          var repo := registry.active.value;
          a := if repo.source != source then Failed(SOURCE_MISMATCH) else Attached(repo.gitDir);
      }
    }

    /** The first source asked for is the daemon's for good. */
    method BindTo(source: string, gitDir: Option<string>, store: HydratingStore) returns (bound: bool)
      requires Valid()
      modifies this
      ensures bound == Bind(old(registry), source, gitDir).Some?
      ensures registry == if bound then Bind(old(registry), source, gitDir).value else old(registry)
      ensures h == if bound && old(registry).active.None? then store else old(h)
    {
      bound := registry.active.Some? || gitDir.Some?;
      if registry.active.None? && gitDir.Some? {
        registry, h := registry.(active := Some(Repo(source, gitDir.value, map[]))), store;
      }
    }

    /** The part of mounting that needs a bound source. */
    method AddMount(source: string, refName: string, mountpoint: string, overlayOk: bool, mountOk: bool) returns (a: Answer)
      requires registry.active.Some?
      modifies this`registry
      ensures (registry, a) == Step(old(registry), MountReq(source, refName, Some(mountpoint), None, overlayOk, mountOk))
    {
      var repo := registry.active.value;
      if repo.source != source {
        return Failed(SOURCE_MISMATCH);
      }
      if mountpoint in repo.mounts {
        return Failed(MOUNTPOINT_BUSY);
      }
      if !overlayOk {
        return Failed(REF_RESOLVE_FAILED);
      }
      var id := registry.nextId;
      registry := registry.(nextId := id + 1);
      if !mountOk {
        return Failed(MOUNT_FAILED);
      }
      registry := registry.(active := Some(repo.(mounts := repo.mounts[mountpoint := Mount(refName, id)])));
      a := Done;
    }

    // ---------------------------------------------------------- object requests

    /** `handle_fetch`. An `Ok` reply means the object is on disk, whatever its kind, for a
        leader and for a caller that joined another's fetch alike; it is fetched exactly if
        it was absent, and the reply says whether that failed. */
    method Fetch(hex: string, ghost me: nat) returns (r: Result<(), string>, ghost fetch: Hydration)
      requires Valid() && (h != null ==> h.Unclaimed(me))
      modifies Footprint()
      ensures Valid() && (h != null ==> h.Unclaimed(me)) && h == old(h) && registry == old(registry)
      ensures old(Resident()) <= Resident()
      ensures r.Ok? ==> h != null && FromHex(hex).Some? && FromHex(hex).value in Resident()
      ensures FromHex(hex).None? ==> r == Err(BAD_OID)
      ensures FromHex(hex).Some? && h == null ==> r == Err(NOT_ATTACHED)
      ensures FromHex(hex).None? || h == null ==> Sent(me) == old(Sent(me))
      ensures FromHex(hex).Some? && h != null ==>
        var oid := FromHex(hex).value;
        && (fetch.NotNeeded? <==> oid in old(Resident()))
        && HydrationOk(h.backend, oid, fetch, old(Resident()), Resident())
        && Sent(me) == old(Sent(me)) + SentFor(oid, fetch)
        && r == if fetch.Failed() then Err(FETCH_FAILED) else Ok(())
    {
      hide HydratingStore.Valid, HydratingStore.Unclaimed, HydratingStore.Sent, FromHex, HydrationOk, SentFor;
      fetch := NotNeeded;
      var oid := FromHex(hex);
      if oid.None? {
        return Err(BAD_OID), NotNeeded;
      }
      if h == null {
        return Err(NOT_ATTACHED), NotNeeded;
      }
      var header;
      header, fetch := h.Header(oid.value, me);
      r := if header.Ok? then Ok(()) else Err(FETCH_FAILED);
    }

    /** All OIDs of a batch, or none of them. */
    method ParseAll(hexes: seq<string>) returns (r: Option<seq<Oid>>)
      ensures r == AllOids(hexes)
    {
      var oids: seq<Oid> := [];
      for i := 0 to |hexes|
        invariant AllOids(hexes[..i]) == Some(oids)
      {
        assert hexes[..i + 1][..i] == hexes[..i];
        var oid := FromHex(hexes[i]);
        if oid.None? {
          StaysMalformed(hexes, i);
          return None;
        }
        oids := oids + [oid.value];
      }
      assert hexes[..|hexes|] == hexes;
      r := Some(oids);
    }

    /** `handle_fetch_many` and `handle_prefetch_headers`: one malformed OID rejects the
        batch; otherwise one wire probe per OID, in order, of a batch that asked for whatever
        was absent. */
    method FetchMany(hexes: seq<string>, headersOnly: bool, ghost me: nat)
      returns (reply: Reply, ghost probes: seq<Probe>, ghost asked: Asked)
      requires Valid() && (h != null ==> h.Unclaimed(me))
      modifies Footprint()
      ensures Valid() && (h != null ==> h.Unclaimed(me)) && h == old(h) && registry == old(registry)
      ensures old(Resident()) <= Resident()
      ensures AllOids(hexes).None? ==> reply.ErrReply? && reply.code == BAD_OID
      ensures AllOids(hexes).Some? && h == null ==> reply.ErrReply? && reply.code == NOT_ATTACHED
      ensures AllOids(hexes).None? || h == null ==> Sent(me) == old(Sent(me))
      ensures AllOids(hexes).Some? && h != null ==>
        && reply == ProbesReply(Encoded(probes)) && Answered(AllOids(hexes).value, probes, Resident())
        && BatchOk(AllOids(hexes).value, asked, old(Resident()), Resident(), probes)
        && Sent(me) == old(Sent(me)) + EventsOf(asked)
        && (asked.oids != [] ==> asked.run.Some? == h.backend.GitCliBackend?)
    {
      hide HydratingStore.Valid, HydratingStore.Unclaimed, HydratingStore.Sent, FromHex, AllOids, BatchOk, Answered, Encoded, ProbeToWire, EventsOf;
      probes, asked := [], Asked([], [], None);
      var oids := ParseAll(hexes);
      if oids.None? {
        return ErrReply(BAD_OID, "invalid OID"), [], asked;
      }
      if h == null {
        return ErrReply(NOT_ATTACHED, "daemon has no active source yet; send Attach first"), [], asked;
      }
      var out, wire;
      out, asked := Batch(oids.value, headersOnly, me);
      wire := EncodeAll(out);
      probes := out;
      reply := ProbesReply(wire);
    }

    method Batch(oids: seq<Oid>, headersOnly: bool, ghost me: nat) returns (out: seq<Probe>, ghost asked: Asked)
      requires Valid() && h != null && h.Unclaimed(me)
      modifies Footprint()
      ensures Valid() && h == old(h) && h != null && h.Unclaimed(me) && registry == old(registry)
      ensures old(Resident()) <= Resident() && Answered(oids, out, Resident())
      ensures BatchOk(oids, asked, old(Resident()), Resident(), out)
      ensures Sent(me) == old(Sent(me)) + EventsOf(asked)
      ensures asked.oids != [] ==> asked.run.Some? == h.backend.GitCliBackend?
    {
      hide HydratingStore.Valid, HydratingStore.Unclaimed, HydratingStore.Sent, BatchOk, Answered, EventsOf;
      ghost var before := h.store.resident;
      if headersOnly {
        out, asked := h.PrefetchHeaders(oids, me);
      } else {
        out, asked := h.FetchObjects(oids, me);
      }
      HydratedBatchKeepsThePromise(oids, asked, before, h.store.resident, out);
    }
  }

  /** What a reply is worth: the first answer about an OID is a presence only if the object
      is resident or a peer is fetching it, a header only if it is resident, and whatever
      was not asked for is resident and reported present. */
  lemma {:induction false} ReplyMeans(
      oids: seq<Oid>, asked: Asked, before: set<Oid>, now: set<Oid>, probes: seq<Probe>, wire: seq<WireProbe>, i: nat)
    requires BatchOk(oids, asked, before, now, probes) && wire == Encoded(probes)
    requires i < |oids|
    ensures i < |wire|
    ensures wire[i].WirePresent? && oids[i] !in oids[..i] ==> oids[i] in now || oids[i] in WithPeers(asked)
    ensures wire[i].WirePresentWithHeader? ==> oids[i] in now
    ensures oids[i] !in asked.oids ==> wire[i] == WirePresent(ToHex(oids[i])) && oids[i] in now
    ensures oids[i] !in now ==> oids[i] in asked.oids
  {
    hide BatchOk, WithPeers, ToHex;
    HydratedBatchKeepsThePromise(oids, asked, before, now, probes);
    UnaskedIsLocal(oids, asked, before, now, probes, oids[i]);
  }

  function AllOids(hexes: seq<string>): Option<seq<Oid>> {
    if hexes == [] then Some([]) else
    match (AllOids(hexes[..|hexes| - 1]), FromHex(hexes[|hexes| - 1]))
    case (Some(oids), Some(oid)) => Some(oids + [oid])
    case _ => None
  }

  lemma {:induction false} StaysMalformed(hexes: seq<string>, i: nat)
    requires i < |hexes| && FromHex(hexes[i]).None?
    ensures AllOids(hexes).None?
  {
    hide FromHex;
    if i < |hexes| - 1 {
      StaysMalformed(hexes[..|hexes| - 1], i);
    }
  }

  method EncodeAll(probes: seq<Probe>) returns (wire: seq<WireProbe>)
    ensures wire == Encoded(probes)
  {
    wire := [];
    for i := 0 to |probes|
      invariant |wire| == i
      invariant forall k | 0 <= k < i :: wire[k] == ProbeToWire(probes[k])
    {
      wire := wire + [ProbeToWire(probes[i])];
    }
  }

  lemma {:induction false} AllOidsOfHex(oids: seq<Oid>)
    ensures AllOids(seq(|oids|, i requires 0 <= i < |oids| => ToHex(oids[i]))) == Some(oids)
  {
    hide FromHex, ToHex;
    var hexes := seq(|oids|, i requires 0 <= i < |oids| => ToHex(oids[i]));
    if oids != [] {
      var n := |oids| - 1;
      assert hexes[..n] == seq(n, i requires 0 <= i < n => ToHex(oids[..n][i]));
      AllOidsOfHex(oids[..n]);
      NamesRoundTrip(oids[n], BlobKind);
      assert oids[..n] + [oids[n]] == oids;
    }
  }

  /** The whole path of a batch: a sidecar asks for OIDs by name, the daemon answers, and
      for pairwise distinct OIDs the sidecar ends up with the daemon's own probes, a header
      or size never changed and still only for resident objects. */
  lemma {:induction false} BatchSurvivesTheRoundTrip(oids: seq<Oid>, op: string, probes: seq<Probe>, resident: set<Oid>)
    requires Distinct(oids)
    requires Answered(oids, probes, resident)
    ensures var seen := FromReply(oids, op, Ok(ProbesReply(Encoded(probes))));
      && AllOids(seq(|oids|, i requires 0 <= i < |oids| => ToHex(oids[i]))) == Some(oids)
      && seen == seq(|oids|, i requires 0 <= i < |oids| => AsSeenBySidecar(probes[i]))
      && Answered(oids, seen, resident)
  {
    hide FromHex, ToHex, FromReply, Encoded, AllOids;
    AllOidsOfHex(oids);
    ProbesSurviveTheWire(oids, op, probes);
  }
}
