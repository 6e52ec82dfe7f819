// Who may run a native CLI child: any number of supervisors and sessions share one
// lease file; spawns fail, get cancelled or outlive their caller, journal writes are
// cut off anywhere, and supervisors die at any point, possibly leaving a live child.
module Ownership {
  import opened Common
  import opened Journals
  import opened NativeWriter

  // The task that starts a child: running, or ended in one of three ways.
  datatype Launch =
    | NoLaunch
    | Spawning(owner: string)
    | Created(owner: string)
    | NotCreated(owner: string)   // an OSError: definitely no child
    | Uncertain(owner: string)    // any other failure: perhaps a child, but no handle

  // A child is named by the owner token of the journal entry made for it.
  // `handle` is a child whose exit some part of the session still waits for.
  datatype Session = Session(
    lease: Option<Lease>,
    launch: Launch,
    aborting: bool,
    handle: Option<string>,
    writer: Option<string>,
    lastReaped: Option<string>,
    alive: bool,
    killed: bool)

  const FRESH := Session(None, NoLaunch, false, None, None, None, true, false)
  const GONE := Session(None, NoLaunch, false, None, None, None, false, true)

  datatype World = World(
    disk: Disk,
    sessions: map<nat, Session>,
    children: multiset<string>,   // alive right now
    used: set<string>)            // owner tokens drawn so far

  const INIT := World(Disk("", None), map[], multiset{}, {})

  datatype Action =
    | Prepare(p: nat, contextOk: bool)
    | LaunchProcess(p: nat, contextOk: bool, journal: Journal, cut: Cut)
    | SpawnCreates(p: nat)
    | SpawnOSError(p: nat)
    | SpawnRaises(p: nat, childLeft: bool)
    | LaunchReturns(p: nat, cut: Cut)
    | Cancel(p: nat)
    | AbortSettles(p: nat, cut: Cut)
    | ChildDies(owner: string)
    | Reap(p: nat, cut: Cut)
    | WaitFails(p: nat)
    | OutputEnds(p: nat)
    | Kill(p: nat)
    | Release(p: nat)
    | Crash(p: nat, lateChild: bool)
    | Recover(owner: string, cut: Cut)

  function At(w: World, p: nat): Session {
    if p in w.sessions then w.sessions[p] else FRESH
  }

  function Put(w: World, p: nat, s: Session): World {
    w.(sessions := w.sessions[p := s])
  }

  function SetBytes(w: World, bytes: string): World {
    w.(disk := w.disk.(bytes := bytes))
  }

  function Released(w: World, p: nat): World {
    var s := At(w, p);
    if s.lease.None? then w
    else Put(w, p, s.(lease := None)).(disk := w.disk.(holder := None))
  }

  // Acquires unless already held, then validates the context.
  function Prepared(w: World, p: nat, contextOk: bool): (r: (World, bool)) {
    var s := At(w, p);
    var failed := if s.writer.None? && s.launch.NoLaunch? then Released(w, p) else w;
    if s.killed then (failed, false)
    else if s.lease.Some? then if contextOk then (w, true) else (failed, false)
    else if Acquirable(w.disk).Err? then (w, false)
    else if contextOk || s.writer.Some? || !s.launch.NoLaunch? then
      (Put(w, p, s.(lease := Some(Lease(None, false)))).(disk := w.disk.(holder := Some(p))), contextOk)
    else (w, false)
  }

  // Marks active, then starts the spawn task. Nothing is awaited in between.
  function Launched(w: World, p: nat, contextOk: bool, j: Journal, cut: Cut): World
    requires j.Active?
  {
    var (ready, ok) := Prepared(w, p, contextOk);
    if !ok || !MayBegin(At(ready, p).lease.value) then Released(ready, p)
    else
      var lease := Begun(At(ready, p).lease.value, j, cut);
      var marked := SetBytes(Put(ready, p, At(ready, p).(lease := Some(lease))), AfterWrite(w.disk.bytes, j, cut))
                    .(used := w.used + {j.owner});
      if lease.failed then Released(marked, p)
      else Put(marked, p, At(marked, p).(launch := Spawning(j.owner)))
  }

  // The lease's own clearing of the journal. The flag says whether it succeeded.
  function ClearedBy(w: World, p: nat, cut: Cut): (World, bool) {
    var s := At(w, p);
    if s.lease.None? || !MayClear(s.lease.value) then (w, false)
    else
      var lease := Cleared(s.lease.value, cut);
      (SetBytes(Put(w, p, s.(lease := Some(lease))), AfterWrite(w.disk.bytes, Idle, cut)), !lease.failed)
  }

  function Returned(w: World, p: nat, cut: Cut): World {
    var s := At(w, p);
    var done := Put(w, p, s.(launch := NoLaunch));
    match s.launch
    case Created(o) => Put(done, p, At(done, p).(writer := Some(o), handle := Some(o)))
    case NotCreated(_) =>
      if s.lease.None? then done
      else var (cleared, ok) := ClearedBy(done, p, cut);
           if ok then Released(cleared, p) else cleared
    case Uncertain(_) => Released(done, p)
    case _ => w
  }

  function Settled(w: World, p: nat, cut: Cut): World {
    var s := At(w, p);
    var done := Put(w, p, s.(launch := NoLaunch, aborting := false));
    match s.launch
    case Created(o) => Put(done, p, At(done, p).(writer := Some(o), handle := Some(o)))
    case NotCreated(_) => Released(ClearedBy(done, p, cut).0, p)
    case Uncertain(_) => Released(done, p)
    case _ => w
  }

  // The child behind the handle has exited.
  function Reaped(w: World, p: nat, h: string, cut: Cut): World {
    var s := At(w, p);
    if s.lastReaped == Some(h) then Put(w, p, s.(handle := None))
    else if s.writer != Some(h) || s.lease.None? then Put(w, p, s.(handle := None, lastReaped := Some(h)))
    else
      var (cleared, ok) := ClearedBy(w, p, cut);
      if ok then Put(cleared, p, At(cleared, p).(handle := None, lastReaped := Some(h), writer := None))
      else Released(Put(cleared, p, At(cleared, p).(alive := false, killed := true)), p)
  }

  // The operator's word that a writer has stopped is true.
  ghost predicate Stopped(w: World, owner: string) {
    owner !in w.children && forall p: nat :: At(w, p).launch != Spawning(owner)
  }

  // Steps that the code, the operating system or a truthful operator can take.
  ghost predicate Enabled(w: World, a: Action) {
    match a
    case LaunchProcess(p, _, j, _) =>
      // One dispatcher per session starts a child only after it is done with the last.
      && At(w, p).alive && At(w, p).launch.NoLaunch? && At(w, p).handle.None?
      && WellFormed(j) && j.Active? && j.owner !in w.used
    case SpawnCreates(p) => At(w, p).launch.Spawning?
    case SpawnOSError(p) => At(w, p).launch.Spawning?
    case SpawnRaises(p, _) => At(w, p).launch.Spawning?
    case LaunchReturns(p, _) => !At(w, p).launch.NoLaunch? && !At(w, p).launch.Spawning? && !At(w, p).aborting
    case Cancel(p) => !At(w, p).launch.NoLaunch? && !At(w, p).aborting
    case AbortSettles(p, _) => !At(w, p).launch.NoLaunch? && !At(w, p).launch.Spawning? && At(w, p).aborting
    case Reap(p, _) => At(w, p).handle.Some? && At(w, p).handle.value !in w.children
    case WaitFails(p) => At(w, p).handle.Some?
    case Release(p) => !At(w, p).alive || At(w, p).killed
    case Recover(owner, _) => Stopped(w, owner)
    case _ => true
  }

  function Step(w: World, a: Action): World
    requires Enabled(w, a)
  {
    match a
    case Prepare(p, contextOk) => Prepared(w, p, contextOk).0
    case LaunchProcess(p, contextOk, j, cut) => Launched(w, p, contextOk, j, cut)
    case SpawnCreates(p) =>
      var o := At(w, p).launch.owner;
      Put(w, p, At(w, p).(launch := Created(o))).(children := w.children + multiset{o})
    case SpawnOSError(p) => Put(w, p, At(w, p).(launch := NotCreated(At(w, p).launch.owner)))
    case SpawnRaises(p, childLeft) =>
      var o := At(w, p).launch.owner;
      Put(w, p, At(w, p).(launch := Uncertain(o)))
      .(children := if childLeft then w.children + multiset{o} else w.children)
    case LaunchReturns(p, cut) => Returned(w, p, cut)
    case Cancel(p) => Put(w, p, At(w, p).(aborting := true, alive := false, killed := true))
    case AbortSettles(p, cut) => Settled(w, p, cut)
    case ChildDies(o) => w.(children := w.children - multiset{o})
    case Reap(p, cut) => Reaped(w, p, At(w, p).handle.value, cut)
    case WaitFails(p) => Put(w, p, At(w, p).(handle := None))
    case OutputEnds(p) => Put(w, p, At(w, p).(alive := false))
    case Kill(p) => Put(w, p, At(w, p).(alive := false, killed := true))
    case Release(p) => Released(w, p)
    case Crash(p, lateChild) =>
      var s := At(w, p);
      Put(Released(w, p), p, GONE)
      .(children := if s.launch.Spawning? && lateChild then w.children + multiset{s.launch.owner} else w.children)
    case Recover(owner, cut) =>
      if Recoverable(w.disk, owner, true).Ok? then SetBytes(w, AfterWrite(w.disk.bytes, Idle, cut)) else w
  }

  // A run takes enabled steps only; a disabled one is skipped.
  ghost function Run(w: World, actions: seq<Action>): World
    decreases |actions|
  {
    if actions == [] then w
    else Run(if Enabled(w, actions[0]) then Step(w, actions[0]) else w, actions[1..])
  }

  // ---- Invariant -----------------------------------------------------------------------

  ghost predicate LockInv(w: World) {
    forall p: nat :: At(w, p).lease.Some? <==> w.disk.holder == Some(p)
  }

  // A lease in good order knows what the journal says.
  ghost predicate LeaseInv(w: World, s: Session) {
    s.lease.Some? && !s.lease.value.failed ==>
      Read(w.disk.bytes) == if s.lease.value.owner.Some? then IsActive(s.lease.value.owner.value) else IsIdle
  }

  // ... and its owner is the child the session is starting or waiting for.
  ghost predicate OwnerInv(s: Session) {
    s.lease.Some? && !s.lease.value.failed && s.lease.value.owner.Some? ==>
      var o := s.lease.value.owner.value;
      && (!s.launch.NoLaunch? ==> s.launch.owner == o)
      && (s.handle.Some? ==> s.handle.value == o)
  }

  // A child that lives or may yet come to life is the one the journal names.
  ghost predicate ChildInv(w: World) {
    && (forall o :: w.children[o] <= 1)
    && (forall o :: o in w.children ==> Read(w.disk.bytes) == IsActive(o) && o in w.used)
  }

  ghost predicate LaunchInv(w: World, s: Session) {
    && (!s.launch.NoLaunch? ==> s.launch.owner in w.used)
    && (s.launch.Spawning? ==> Read(w.disk.bytes) == IsActive(s.launch.owner))
    && (s.launch.Spawning? || s.launch.NotCreated? ==> s.launch.owner !in w.children)
    && (s.handle.Some? ==> s.handle.value in w.used)
  }

  // Owner tokens tell launches and handles apart.
  ghost predicate TokenInv(w: World) {
    && (forall p: nat, q: nat :: p != q && !At(w, p).launch.NoLaunch? && !At(w, q).launch.NoLaunch? ==>
          At(w, p).launch.owner != At(w, q).launch.owner)
    && (forall p: nat, q: nat :: At(w, p).handle.Some? && !At(w, q).launch.NoLaunch? ==>
          At(w, p).handle.value != At(w, q).launch.owner)
  }

  ghost predicate Inv(w: World) {
    && Wholesome(w.disk.bytes)
    && LockInv(w)
    && (forall p: nat :: LeaseInv(w, At(w, p)) && OwnerInv(At(w, p)) && LaunchInv(w, At(w, p)))
    && ChildInv(w)
    && TokenInv(w)
  }

  // ---- Every step keeps it --------------------------------------------------------------

  lemma PutAt(w: World, p: nat, s: Session)
    ensures forall q: nat :: At(Put(w, p, s), q) == if q == p then s else At(w, q)
  {
  }

  // The part of the invariant about one session, which mentions the disk, the children
  // and the tokens only.
  ghost predicate SessionInv(w: World, s: Session) {
    LeaseInv(w, s) && OwnerInv(s) && LaunchInv(w, s)
  }

  lemma ReleasedInv(w: World, p: nat)
    requires Inv(w)
    ensures Inv(Released(w, p))
  {
    var s := At(w, p).(lease := None);
    PutAt(w, p, s);
    var t := Released(w, p);
    forall q: nat
      ensures SessionInv(t, At(t, q))
    {
      assert SessionInv(w, At(w, q));
    }
  }

  // A session that changes only its flags or drops what it waits for.
  lemma FlagsInv(w: World, p: nat, s: Session)
    requires Inv(w)
    requires s.lease == At(w, p).lease
    requires s.launch == At(w, p).launch || s.launch.NoLaunch?
    requires s.handle == At(w, p).handle || s.handle.None?
    ensures Inv(Put(w, p, s))
  {
    PutAt(w, p, s);
    var t := Put(w, p, s);
    forall q: nat
      ensures SessionInv(t, At(t, q))
    {
      assert SessionInv(w, At(w, q));
    }
    FlagsTokens(w, p, s);
  }

  lemma FlagsTokens(w: World, p: nat, s: Session)
    requires TokenInv(w)
    requires s.launch == At(w, p).launch || s.launch.NoLaunch?
    requires s.handle == At(w, p).handle || s.handle.None?
    ensures TokenInv(Put(w, p, s))
  {
    PutAt(w, p, s);
  }

  function Acquired(w: World, p: nat): World {
    Put(w, p, At(w, p).(lease := Some(Lease(None, false)))).(disk := w.disk.(holder := Some(p)))
  }

  lemma AcquiredInv(w: World, p: nat)
    requires Inv(w)
    requires At(w, p).lease.None? && Acquirable(w.disk).Ok?
    ensures Inv(Acquired(w, p))
  {
    var t := Acquired(w, p);
    forall q: nat
      ensures At(t, q) == if q == p then At(w, p).(lease := Some(Lease(None, false))) else At(w, q)
    {}
    forall q: nat
      ensures SessionInv(t, At(t, q))
    {
      assert SessionInv(w, At(w, q));
    }
  }

  // What preparing may change: the session's lease and the lock.
  ghost predicate OnlyLease(w: World, t: World, p: nat) {
    && At(t, p) == At(w, p).(lease := At(t, p).lease)
    && (forall q: nat :: q != p ==> At(t, q) == At(w, q))
    && t.disk.bytes == w.disk.bytes && t.children == w.children && t.used == w.used
  }

  lemma PreparedInv(w: World, p: nat, contextOk: bool)
    requires Inv(w)
    ensures var (t, ok) := Prepared(w, p, contextOk);
            Inv(t) && OnlyLease(w, t, p) && (ok ==> At(t, p).lease.Some?)
  {
    ReleasedInv(w, p);
    var s := At(w, p);
    if !s.killed && s.lease.None? && Acquirable(w.disk).Ok? {
      AcquiredInv(w, p);
    }
  }

  // No child lives and none is being started.
  ghost predicate Quiet(w: World) {
    && w.children == multiset{}
    && forall p: nat :: !At(w, p).launch.Spawning?
  }

  // While all is quiet, the holder of the lease may rewrite the journal.
  lemma WriteInv(w: World, p: nat, lease: Lease, bytes: string)
    requires Inv(w) && Quiet(w) && At(w, p).lease.Some?
    requires Wholesome(bytes)
    requires !lease.failed ==> Read(bytes) == if lease.owner.Some? then IsActive(lease.owner.value) else IsIdle
    requires !lease.failed && lease.owner.Some? ==> At(w, p).launch.NoLaunch? && At(w, p).handle.None?
    ensures Inv(SetBytes(Put(w, p, At(w, p).(lease := Some(lease))), bytes))
  {
    var s := At(w, p).(lease := Some(lease));
    var t := SetBytes(Put(w, p, s), bytes);
    forall q: nat
      ensures At(t, q) == if q == p then s else At(w, q)
    {}
    forall q: nat
      ensures SessionInv(t, At(t, q))
    {
      assert SessionInv(w, At(w, q));
      if q != p {
        assert At(w, q).lease.None?;
      }
    }
  }

  lemma IdleIsQuiet(w: World)
    requires Inv(w) && !Read(w.disk.bytes).IsActive?
    ensures Quiet(w)
  {
    forall o: string
      ensures w.children[o] == 0
    {}
    forall p: nat
      ensures !At(w, p).launch.Spawning?
    {
      assert LaunchInv(w, At(w, p));
    }
  }

  lemma StoppedIsQuiet(w: World, o: string)
    requires Inv(w) && Read(w.disk.bytes) == IsActive(o) && Stopped(w, o)
    ensures Quiet(w)
  {
    forall c: string
      ensures w.children[c] == 0
    {}
    forall p: nat
      ensures !At(w, p).launch.Spawning?
    {
      assert LaunchInv(w, At(w, p));
    }
  }

  lemma ClearedInv(w: World, p: nat, cut: Cut)
    requires Inv(w)
    requires At(w, p).lease.Some? && MayClear(At(w, p).lease.value) ==> Stopped(w, At(w, p).lease.value.owner.value)
    ensures Inv(ClearedBy(w, p, cut).0)
    ensures var (t, ok) := ClearedBy(w, p, cut);
            && At(t, p) == At(w, p).(lease := At(t, p).lease)
            && (At(w, p).lease.None? <==> At(t, p).lease.None?)
            && (ok ==> At(t, p).lease == Some(Lease(None, false)))
  {
    var s := At(w, p);
    if s.lease.Some? && MayClear(s.lease.value) {
      var o := s.lease.value.owner.value;
      assert LeaseInv(w, s);
      StoppedIsQuiet(w, o);
      CutWriteIsSafe(w.disk.bytes, Idle, cut);
      CutWriteIsWholesome(w.disk.bytes, Idle, cut);
      var bytes := AfterWrite(w.disk.bytes, Idle, cut);
      if cut.Whole? {
        IdleHeld(w.disk.bytes);
      }
      WriteInv(w, p, Cleared(s.lease.value, cut), bytes);
    }
  }

  lemma IdleHeld(file: string)
    ensures Holds(Written(file, Encode(Idle), Whole), Idle)
    ensures Read(Written(file, Encode(Idle), Whole)) == IsIdle
  {
    EncodeState("idle");
    HeadLength();
    ReplacedHolds(file, Idle);
    ReadHeld(Written(file, Encode(Idle), Whole), Idle);
  }

  lemma LaunchedInv(w: World, p: nat, contextOk: bool, j: Journal, cut: Cut)
    requires Inv(w) && Enabled(w, LaunchProcess(p, contextOk, j, cut))
    ensures Inv(Launched(w, p, contextOk, j, cut))
  {
    PreparedInv(w, p, contextOk);
    var (ready, ok) := Prepared(w, p, contextOk);
    ReleasedInv(ready, p);
    if ok && MayBegin(At(ready, p).lease.value) {
      MarkedInv(ready, p, j, cut);
    }
  }

  function Marked(w: World, p: nat, j: Journal, cut: Cut): World
    requires j.Active? && At(w, p).lease.Some?
  {
    SetBytes(Put(w, p, At(w, p).(lease := Some(Begun(At(w, p).lease.value, j, cut)))), AfterWrite(w.disk.bytes, j, cut))
    .(used := w.used + {j.owner})
  }

  lemma MarkedInv(w: World, p: nat, j: Journal, cut: Cut)
    requires Inv(w) && At(w, p).lease.Some? && MayBegin(At(w, p).lease.value)
    requires At(w, p).launch.NoLaunch? && At(w, p).handle.None?
    requires WellFormed(j) && j.Active? && j.owner !in w.used
    ensures var t := Marked(w, p, j, cut);
            if At(t, p).lease.value.failed then Inv(Released(t, p))
            else Inv(Put(t, p, At(t, p).(launch := Spawning(j.owner))))
  {
    var lease := Begun(At(w, p).lease.value, j, cut);
    assert LeaseInv(w, At(w, p));
    IdleIsQuiet(w);
    CutWriteIsWholesome(w.disk.bytes, j, cut);
    if !lease.failed {
      ReplacedHolds(w.disk.bytes, j);
      ReadHeld(AfterWrite(w.disk.bytes, j, cut), j);
    }
    var bytes := AfterWrite(w.disk.bytes, j, cut);
    WriteInv(w, p, lease, bytes);
    var u := SetBytes(Put(w, p, At(w, p).(lease := Some(lease))), bytes);
    MoreUsed(u, j.owner);
    if lease.failed {
      ReleasedInv(u.(used := w.used + {j.owner}), p);
    } else {
      assert Quiet(u) by { WriteQuiet(w, p, lease, bytes); }
      NewLaunchInv(u, p, j.owner);
    }
  }

  lemma WriteQuiet(w: World, p: nat, lease: Lease, bytes: string)
    requires Quiet(w)
    ensures Quiet(SetBytes(Put(w, p, At(w, p).(lease := Some(lease))), bytes))
  {
    var t := SetBytes(Put(w, p, At(w, p).(lease := Some(lease))), bytes);
    forall q: nat
      ensures At(t, q).launch == At(w, q).launch
    {}
  }

  lemma MoreUsed(w: World, o: string)
    requires Inv(w)
    ensures Inv(w.(used := w.used + {o}))
  {
    var t := w.(used := w.used + {o});
    forall q: nat
      ensures SessionInv(t, At(t, q))
    {
      assert At(t, q) == At(w, q);
      assert SessionInv(w, At(w, q));
    }
    assert forall q: nat :: At(t, q) == At(w, q);
  }

  lemma NewLaunchInv(w: World, p: nat, o: string)
    requires Inv(w) && Quiet(w) && o !in w.used
    requires At(w, p).launch.NoLaunch? && At(w, p).handle.None?
    requires At(w, p).lease == Some(Lease(Some(o), false))
    ensures Inv(Put(w, p, At(w, p).(launch := Spawning(o))).(used := w.used + {o}))
  {
    var s := At(w, p).(launch := Spawning(o));
    var t := Put(w, p, s).(used := w.used + {o});
    forall q: nat
      ensures At(t, q) == if q == p then s else At(w, q)
    {}
    forall q: nat
      ensures SessionInv(t, At(t, q))
    {
      assert SessionInv(w, At(w, q));
    }
  }

  // The spawn task ends, leaving a child or not.
  lemma SpawnEndsInv(w: World, p: nat, launch: Launch, child: bool)
    requires Inv(w) && At(w, p).launch.Spawning?
    requires !launch.NoLaunch? && !launch.Spawning? && launch.owner == At(w, p).launch.owner
    requires child ==> !launch.NotCreated?
    ensures Inv(Put(w, p, At(w, p).(launch := launch))
                .(children := if child then w.children + multiset{launch.owner} else w.children))
  {
    LaunchEndedInv(w, p, launch);
    if child {
      NewChildInv(Put(w, p, At(w, p).(launch := launch)), launch.owner);
    }
  }

  lemma LaunchEndedInv(w: World, p: nat, launch: Launch)
    requires Inv(w) && At(w, p).launch.Spawning?
    requires !launch.NoLaunch? && !launch.Spawning? && launch.owner == At(w, p).launch.owner
    ensures var t := Put(w, p, At(w, p).(launch := launch)); var o := launch.owner;
            && Inv(t)
            && o !in t.children && o in t.used && Read(t.disk.bytes) == IsActive(o)
            && (launch.NotCreated? || forall q: nat :: At(t, q).launch != Spawning(o) && At(t, q).launch != NotCreated(o))
  {
    var s := At(w, p).(launch := launch);
    var t := Put(w, p, s);
    assert SessionInv(w, At(w, p));
    PutAt(w, p, s);
    forall q: nat
      ensures SessionInv(t, At(t, q))
    {
      if q != p {
        assert SessionInv(w, At(w, q));
      }
    }
    SameOwnerTokens(w, p, s);
  }

  lemma SameOwnerTokens(w: World, p: nat, s: Session)
    requires TokenInv(w)
    requires !At(w, p).launch.NoLaunch? && !s.launch.NoLaunch? && s.launch.owner == At(w, p).launch.owner
    requires s.handle == At(w, p).handle
    ensures TokenInv(Put(w, p, s))
  {
    PutAt(w, p, s);
  }

  lemma NewChildInv(w: World, o: string)
    requires Inv(w) && o !in w.children && o in w.used && Read(w.disk.bytes) == IsActive(o)
    requires forall q: nat :: At(w, q).launch != Spawning(o) && At(w, q).launch != NotCreated(o)
    ensures Inv(w.(children := w.children + multiset{o}))
  {
    var t := w.(children := w.children + multiset{o});
    forall q: nat
      ensures At(t, q) == At(w, q)
      ensures SessionInv(t, At(t, q))
    {
      assert SessionInv(w, At(w, q));
    }
  }

  lemma FewerChildrenInv(w: World, o: string)
    requires Inv(w)
    ensures Inv(w.(children := w.children - multiset{o}))
  {
    var t := w.(children := w.children - multiset{o});
    forall q: nat
      ensures At(t, q) == At(w, q)
      ensures SessionInv(t, At(t, q))
    {
      assert SessionInv(w, At(w, q));
    }
  }

  // A created child becomes the one the session waits for.
  lemma HandleInv(w: World, p: nat, aborting: bool)
    requires Inv(w) && At(w, p).launch.Created?
    ensures var s := At(w, p); var o := s.launch.owner;
            Inv(Put(w, p, s.(launch := NoLaunch, aborting := aborting, writer := Some(o), handle := Some(o))))
  {
    var o := At(w, p).launch.owner;
    var s := At(w, p).(launch := NoLaunch, aborting := aborting, writer := Some(o), handle := Some(o));
    var t := Put(w, p, s);
    forall q: nat
      ensures At(t, q) == if q == p then s else At(w, q)
    {}
    forall q: nat
      ensures SessionInv(t, At(t, q))
    {
      assert SessionInv(w, At(w, q));
    }
  }

  // A launch that ended without a child leaves none under its token.
  lemma FailedLaunchStopped(w: World, p: nat, aborting: bool)
    requires Inv(w) && At(w, p).launch.NotCreated?
    ensures var done := Put(w, p, At(w, p).(launch := NoLaunch, aborting := aborting)); var s := At(done, p);
            && Inv(done)
            && (s.lease.Some? && MayClear(s.lease.value) ==> Stopped(done, s.lease.value.owner.value))
  {
    var s := At(w, p).(launch := NoLaunch, aborting := aborting);
    var done := Put(w, p, s);
    FlagsInv(w, p, s);
    assert LaunchInv(w, At(w, p)) && OwnerInv(At(w, p));
    forall q: nat
      ensures At(done, q).launch != Spawning(At(w, p).launch.owner)
    {
      assert At(done, q) == if q == p then s else At(w, q);
    }
  }

  lemma ReturnedInv(w: World, p: nat, cut: Cut)
    requires Inv(w) && Enabled(w, LaunchReturns(p, cut))
    ensures Inv(Returned(w, p, cut))
  {
    var s := At(w, p);
    var done := Put(w, p, s.(launch := NoLaunch));
    match s.launch
    case Created(o) =>
      HandleInv(w, p, s.aborting);
      PutTwice(w, p, s.(launch := NoLaunch), Returned(w, p, cut));
    case NotCreated(o) =>
      FailedLaunchStopped(w, p, s.aborting);
      ClearedInv(done, p, cut);
      ReleasedInv(ClearedBy(done, p, cut).0, p);
    case Uncertain(o) =>
      FlagsInv(w, p, s.(launch := NoLaunch));
      ReleasedInv(done, p);
  }

  lemma PutTwice(w: World, p: nat, a: Session, t: World)
    requires t == Put(Put(w, p, a), p, At(t, p))
    ensures t == Put(w, p, At(t, p))
  {
    assert w.sessions[p := a][p := At(t, p)] == w.sessions[p := At(t, p)];
  }

  lemma SettledInv(w: World, p: nat, cut: Cut)
    requires Inv(w) && Enabled(w, AbortSettles(p, cut))
    ensures Inv(Settled(w, p, cut))
  {
    var s := At(w, p);
    var done := Put(w, p, s.(launch := NoLaunch, aborting := false));
    match s.launch
    case Created(o) =>
      HandleInv(w, p, false);
      PutTwice(w, p, s.(launch := NoLaunch, aborting := false), Settled(w, p, cut));
    case NotCreated(o) =>
      FailedLaunchStopped(w, p, false);
      ClearedInv(done, p, cut);
      ReleasedInv(ClearedBy(done, p, cut).0, p);
    case Uncertain(o) =>
      FlagsInv(w, p, s.(launch := NoLaunch, aborting := false));
      ReleasedInv(done, p);
  }

  lemma ReapedInv(w: World, p: nat, cut: Cut)
    requires Inv(w) && Enabled(w, Reap(p, cut))
    ensures Inv(Reaped(w, p, At(w, p).handle.value, cut))
  {
    var s := At(w, p);
    var h := s.handle.value;
    FlagsInv(w, p, s.(handle := None));
    FlagsInv(w, p, s.(handle := None, lastReaped := Some(h)));
    if s.lastReaped != Some(h) && s.writer == Some(h) && s.lease.Some? {
      assert OwnerInv(s);
      ClearedInv(w, p, cut);
      var (cleared, ok) := ClearedBy(w, p, cut);
      var after := At(cleared, p);
      FlagsInv(cleared, p, after.(handle := None, lastReaped := Some(h), writer := None));
      FlagsInv(cleared, p, after.(alive := false, killed := true));
      ReleasedInv(Put(cleared, p, after.(alive := false, killed := true)), p);
    }
  }

  lemma CrashInv(w: World, p: nat, lateChild: bool)
    requires Inv(w)
    ensures Inv(Step(w, Crash(p, lateChild)))
  {
    if At(w, p).launch.Spawning? {
      EndedInv(w, p, lateChild);
      SameAfterCrash(w, p, lateChild);
    } else {
      GoneInv(w, p);
      SameChildren(w, p, lateChild);
    }
  }

  lemma EndedInv(w: World, p: nat, lateChild: bool)
    requires Inv(w) && At(w, p).launch.Spawning?
    ensures Inv(Put(Released(Ended(w, p, lateChild), p), p, GONE))
  {
    SpawnEndsInv(w, p, Uncertain(At(w, p).launch.owner), lateChild);
    GoneInv(Ended(w, p, lateChild), p);
  }

  lemma SameChildren(w: World, p: nat, lateChild: bool)
    requires !At(w, p).launch.Spawning?
    ensures Step(w, Crash(p, lateChild)) == Put(Released(w, p), p, GONE)
  {
  }

  lemma GoneInv(w: World, p: nat)
    requires Inv(w)
    ensures Inv(Put(Released(w, p), p, GONE))
  {
    ReleasedInv(w, p);
    FlagsInv(Released(w, p), p, GONE);
  }

  function Ended(w: World, p: nat, lateChild: bool): World
    requires At(w, p).launch.Spawning?
  {
    var o := At(w, p).launch.owner;
    Put(w, p, At(w, p).(launch := Uncertain(o))).(children := if lateChild then w.children + multiset{o} else w.children)
  }

  lemma SameAfterCrash(w: World, p: nat, lateChild: bool)
    requires At(w, p).launch.Spawning?
    ensures Put(Released(Ended(w, p, lateChild), p), p, GONE) == Step(w, Crash(p, lateChild))
  {
    var s := At(w, p);
    var a := s.(launch := Uncertain(s.launch.owner));
    var b := a.(lease := None);
    assert w.sessions[p := a][p := GONE] == w.sessions[p := GONE];
    assert w.sessions[p := a][p := b][p := GONE] == w.sessions[p := GONE];
    assert w.sessions[p := s.(lease := None)][p := GONE] == w.sessions[p := GONE];
  }

  lemma RecoverInv(w: World, owner: string, cut: Cut)
    requires Inv(w) && Enabled(w, Recover(owner, cut))
    ensures Inv(Step(w, Recover(owner, cut)))
  {
    if Recoverable(w.disk, owner, true).Ok? {
      StoppedIsQuiet(w, owner);
      CutWriteIsWholesome(w.disk.bytes, Idle, cut);
      var t := Step(w, Recover(owner, cut));
      forall q: nat
        ensures SessionInv(t, At(t, q))
      {
        assert At(t, q) == At(w, q);
        assert SessionInv(w, At(w, q));
        assert At(w, q).lease.None?;
      }
      assert forall q: nat :: At(t, q) == At(w, q);
    }
  }

  lemma StepInv(w: World, a: Action)
    requires Inv(w) && Enabled(w, a)
    ensures Inv(Step(w, a))
  {
    match a
    case Prepare(p, contextOk) => PreparedInv(w, p, contextOk);
    case LaunchProcess(p, contextOk, j, cut) => LaunchedInv(w, p, contextOk, j, cut);
    case SpawnCreates(p) => SpawnEndsInv(w, p, Created(At(w, p).launch.owner), true);
    case SpawnOSError(p) => SpawnEndsInv(w, p, NotCreated(At(w, p).launch.owner), false);
    case SpawnRaises(p, childLeft) => SpawnEndsInv(w, p, Uncertain(At(w, p).launch.owner), childLeft);
    case LaunchReturns(p, cut) => ReturnedInv(w, p, cut);
    case Cancel(p) => FlagsInv(w, p, At(w, p).(aborting := true, alive := false, killed := true));
    case AbortSettles(p, cut) => SettledInv(w, p, cut);
    case ChildDies(o) => FewerChildrenInv(w, o);
    case Reap(p, cut) => ReapedInv(w, p, cut);
    case WaitFails(p) => FlagsInv(w, p, At(w, p).(handle := None));
    case OutputEnds(p) => FlagsInv(w, p, At(w, p).(alive := false));
    case Kill(p) => FlagsInv(w, p, At(w, p).(alive := false, killed := true));
    case Release(p) => ReleasedInv(w, p);
    case Crash(p, lateChild) => CrashInv(w, p, lateChild);
    case Recover(owner, cut) => RecoverInv(w, owner, cut);
  }

  lemma {:induction false} RunInv(w: World, actions: seq<Action>)
    requires Inv(w)
    ensures Inv(Run(w, actions))
    decreases |actions|
  {
    if actions != [] {
      if Enabled(w, actions[0]) {
        StepInv(w, actions[0]);
      }
      RunInv(if Enabled(w, actions[0]) then Step(w, actions[0]) else w, actions[1..]);
    }
  }

  lemma InitInv()
    ensures Inv(INIT)
  {
  }

  // ---- Main results ---------------------------------------------------------------------------

  // However supervisors crash, cancel, kill and fail to reap, at most one child is
  // alive, and the journal on disk names it.
  lemma AtMostOneChild(actions: seq<Action>)
    ensures var w := Run(INIT, actions);
            && |w.children| <= 1
            && forall o :: o in w.children ==> Read(w.disk.bytes) == IsActive(o)
  {
    InitInv();
    RunInv(INIT, actions);
    var w := Run(INIT, actions);
    if w.children != multiset{} {
      var o :| o in w.children;
      forall c: string
        ensures w.children[c] == multiset{o}[c]
      {
        assert c in w.children ==> IsActive(c) == IsActive(o);
      }
      assert w.children == multiset{o};
    }
  }

  // While a child lives or is being started, no other start gets past its journal
  // check, whoever tries it.
  lemma NoSecondLaunch(actions: seq<Action>, p: nat, contextOk: bool, j: Journal, cut: Cut)
    requires var w := Run(INIT, actions);
             !Quiet(w) && Enabled(w, LaunchProcess(p, contextOk, j, cut))
    ensures var w := Run(INIT, actions); var t := Step(w, LaunchProcess(p, contextOk, j, cut));
            At(t, p).launch.NoLaunch? && t.disk.bytes == w.disk.bytes && t.children == w.children
  {
    InitInv();
    RunInv(INIT, actions);
    var w := Run(INIT, actions);
    PreparedInv(w, p, contextOk);
    var (ready, ok) := Prepared(w, p, contextOk);
    if !Read(w.disk.bytes).IsActive? {
      IdleIsQuiet(w);
    }
    assert LeaseInv(ready, At(ready, p));
  }

  // Once nobody holds the lock and the journal is not idle, whatever sessions do
  // leaves it as it is: only a recovery by hand reopens the context.
  lemma OnlyRecoveryReopens(w: World, a: Action)
    requires Inv(w) && Enabled(w, a) && !a.Recover?
    requires w.disk.holder.None? && Read(w.disk.bytes) != IsIdle
    ensures Step(w, a).disk == w.disk
  {
    forall q: nat
      ensures At(w, q).lease.None?
    {}
  }

  // A child that is reaped with its journal cleared leaves the context to the next.
  lemma ReapedHandsOver(w: World, p: nat, q: nat)
    requires Inv(w) && p != q && Enabled(w, Reap(p, Whole))
    requires At(w, p).lease == Some(Lease(At(w, p).handle, false))
    requires At(w, p).writer == At(w, p).handle != At(w, p).lastReaped
    requires !At(w, q).killed
    ensures var freed := Released(Step(w, Reap(p, Whole)), p);
            Prepared(freed, q, true).1 && At(Prepared(freed, q, true).0, q).lease == Some(Lease(None, false))
  {
    var (cleared, ok) := ClearedBy(w, p, Whole);
    IdleHeld(w.disk.bytes);
    assert ok && At(cleared, p).lease == Some(Lease(None, false));
    var reaped := Step(w, Reap(p, Whole));
    assert At(reaped, p).lease.Some? && At(reaped, q) == At(w, q);
    assert At(w, q).lease.None?;
    FreeForNext(reaped, p, q);
  }

  lemma FreeForNext(w: World, p: nat, q: nat)
    requires p != q && At(w, p).lease.Some? && At(w, q).lease.None? && !At(w, q).killed
    requires Read(w.disk.bytes) == IsIdle
    ensures var freed := Released(w, p);
            Prepared(freed, q, true).1 && At(Prepared(freed, q, true).0, q).lease == Some(Lease(None, false))
  {
  }

  // ---- What launches, endings and clearings come to --------------------------------------------

  // What a reachable world says about one session.
  lemma ReachableSession(actions: seq<Action>, p: nat)
    ensures var w := Run(INIT, actions); LockInv(w) && LeaseInv(w, At(w, p)) && OwnerInv(At(w, p))
  {
    InitInv();
    RunInv(INIT, actions);
  }

  lemma Marks(file: string, j: Journal)
    requires WellFormed(j) && j.Active? && |Encode(j)| <= MAX_JOURNAL
    ensures Read(AfterWrite(file, j, Whole)) == IsActive(j.owner)
  {
    ReplacedHolds(file, j);
    ReadHeld(AfterWrite(file, j, Whole), j);
  }

  // A launch gets as far as its spawn task if and only if the session is open, its
  // context is in order, it holds an idle lease or finds the lock free and the journal
  // idle, and the mark is written whole. It then owns the journal on disk; otherwise it
  // holds no lease afterwards, and has not touched the journal unless it came to the write.
  ghost predicate Starts(w: World, t: World, p: nat, contextOk: bool, j: Journal, cut: Cut)
    requires j.Active?
  {
    var ready := !At(w, p).killed && contextOk
                 && (At(w, p).lease == Some(Lease(None, false))
                     || (At(w, p).lease.None? && w.disk.holder.None? && Read(w.disk.bytes) == IsIdle));
    && (ready && cut.Whole? && |Encode(j)| <= MAX_JOURNAL
        <==> At(t, p).launch == Spawning(j.owner)
             && At(t, p).lease == Some(Lease(Some(j.owner), false))
             && Read(t.disk.bytes) == IsActive(j.owner))
    && (At(t, p).launch.NoLaunch? <==> At(t, p).lease.None?)
    && (!ready ==> t.disk.bytes == w.disk.bytes)
    && At(t, p) == At(w, p).(launch := At(t, p).launch, lease := At(t, p).lease)
    && (forall q: nat :: q != p ==> At(t, q) == At(w, q))
    && t.children == w.children
  }

  // So it is in every reachable state.
  lemma LaunchStarts(actions: seq<Action>, p: nat, contextOk: bool, j: Journal, cut: Cut)
    requires Enabled(Run(INIT, actions), LaunchProcess(p, contextOk, j, cut))
    ensures var w := Run(INIT, actions); Starts(w, Step(w, LaunchProcess(p, contextOk, j, cut)), p, contextOk, j, cut)
  {
    LaunchedStarts(Run(INIT, actions), p, contextOk, j, cut);
  }

  lemma PreparedStarts(w: World, p: nat, contextOk: bool)
    ensures var (r, ok) := Prepared(w, p, contextOk);
            var ready := !At(w, p).killed && contextOk
                         && (At(w, p).lease == Some(Lease(None, false))
                             || (At(w, p).lease.None? && w.disk.holder.None? && Read(w.disk.bytes) == IsIdle));
            && (ok ==> At(r, p).lease.Some?)
            && (ready <==> ok && MayBegin(At(r, p).lease.value))
            && (ready ==> At(r, p) == At(w, p).(lease := Some(Lease(None, false))))
            && OnlyLease(w, r, p)
  {
  }

  lemma MarkedStarts(w: World, p: nat, j: Journal, cut: Cut)
    requires At(w, p).lease == Some(Lease(None, false)) && WellFormed(j) && j.Active?
    ensures var t := Marked(w, p, j, cut); var whole := cut.Whole? && |Encode(j)| <= MAX_JOURNAL;
            && OnlySession(w, t, p)
            && At(t, p) == At(w, p).(lease := Some(if whole then Lease(Some(j.owner), false) else Lease(None, true)))
            && (whole ==> Read(t.disk.bytes) == IsActive(j.owner))
  {
    if cut.Whole? && |Encode(j)| <= MAX_JOURNAL {
      Marks(w.disk.bytes, j);
    }
  }

  // A step leaves the other sessions and the children alone.
  ghost predicate OnlySession(w: World, t: World, p: nat) {
    t.children == w.children && forall q: nat :: q != p ==> At(t, q) == At(w, q)
  }

  lemma ReleasedStarts(w: World, p: nat)
    ensures OnlySession(w, Released(w, p), p) && At(Released(w, p), p) == At(w, p).(lease := None)
    ensures Released(w, p).disk.bytes == w.disk.bytes
  {
  }

  lemma SpawningStarts(w: World, p: nat, o: string)
    ensures var t := Put(w, p, At(w, p).(launch := Spawning(o)));
            OnlySession(w, t, p) && At(t, p) == At(w, p).(launch := Spawning(o)) && t.disk == w.disk
  {
  }

  lemma LaunchedIs(w: World, p: nat, contextOk: bool, j: Journal, cut: Cut)
    requires j.Active?
    ensures var (r, ok) := Prepared(w, p, contextOk); var t := Launched(w, p, contextOk, j, cut);
            if !ok || !MayBegin(At(r, p).lease.value) then t == Released(r, p)
            else var m := Marked(r, p, j, cut);
                 t == if At(m, p).lease.value.failed then Released(m, p) else Put(m, p, At(m, p).(launch := Spawning(j.owner)))
  {
  }

  lemma LaunchedStarts(w: World, p: nat, contextOk: bool, j: Journal, cut: Cut)
    requires Enabled(w, LaunchProcess(p, contextOk, j, cut))
    ensures Starts(w, Launched(w, p, contextOk, j, cut), p, contextOk, j, cut)
  {
    PreparedStarts(w, p, contextOk);
    var (r, ok) := Prepared(w, p, contextOk);
    ReleasedStarts(r, p);
    if ok && MayBegin(At(r, p).lease.value) {
      MarkedStarts(r, p, j, cut);
      ReleasedStarts(Marked(r, p, j, cut), p);
      SpawningStarts(Marked(r, p, j, cut), p, j.owner);
    }
  }

  // How a launch that was not cancelled ends. A child is waited for; a spawn that left
  // none clears its own mark and gives the lease back, or keeps it when that fails; an
  // uncertain one gives the lease back and leaves the mark.
  ghost predicate EndsLaunch(w: World, t: World, p: nat, cut: Cut) {
    var s := At(w, p);
    && (s.launch.Created? ==>
          && At(t, p) == s.(launch := NoLaunch, writer := Some(s.launch.owner), handle := Some(s.launch.owner))
          && t.disk == w.disk)
    && (s.launch.NotCreated? && s.lease == Some(Lease(Some(s.launch.owner), false)) ==>
          if cut.Whole?
          then At(t, p) == s.(launch := NoLaunch, lease := None) && Read(t.disk.bytes) == IsIdle && t.disk.holder.None?
          else At(t, p) == s.(launch := NoLaunch, lease := Some(Lease(Some(s.launch.owner), true))))
    && (s.launch.NotCreated? && s.lease != Some(Lease(Some(s.launch.owner), false)) ==>
          At(t, p) == s.(launch := NoLaunch) && t.disk == w.disk)
    && (s.launch.Uncertain? ==> At(t, p) == s.(launch := NoLaunch, lease := None) && t.disk.bytes == w.disk.bytes)
    && t.children == w.children
  }

  // So it is in every reachable state.
  lemma LaunchEnds(actions: seq<Action>, p: nat, cut: Cut)
    requires Enabled(Run(INIT, actions), LaunchReturns(p, cut))
    ensures var w := Run(INIT, actions); EndsLaunch(w, Step(w, LaunchReturns(p, cut)), p, cut)
  {
    ReachableSession(actions, p);
    ReturnedEnds(Run(INIT, actions), p, cut);
  }

  lemma ReturnedEnds(w: World, p: nat, cut: Cut)
    requires LockInv(w) && LeaseInv(w, At(w, p)) && OwnerInv(At(w, p)) && Enabled(w, LaunchReturns(p, cut))
    ensures EndsLaunch(w, Step(w, LaunchReturns(p, cut)), p, cut)
  {
    IdleHeld(w.disk.bytes);
  }

  // The cleanup of a cancelled launch ends without the lease, whatever became of the
  // mark, unless a child came up: that one is waited for first.
  ghost predicate EndsAbort(w: World, t: World, p: nat, cut: Cut)
    requires !At(w, p).launch.NoLaunch?
  {
    var s := At(w, p);
    && (s.launch.Created? ==>
          && At(t, p) == s.(launch := NoLaunch, aborting := false,
                            writer := Some(s.launch.owner), handle := Some(s.launch.owner))
          && t.disk == w.disk)
    && (!s.launch.Created? ==> At(t, p) == s.(launch := NoLaunch, aborting := false, lease := None))
    && (s.launch.NotCreated? && s.lease == Some(Lease(Some(s.launch.owner), false)) ==>
          t.disk.holder.None? && (cut.Whole? ==> Read(t.disk.bytes) == IsIdle))
    && (s.launch.Uncertain? || s.lease != Some(Lease(Some(s.launch.owner), false)) ==>
          t.disk.bytes == w.disk.bytes)
    && t.children == w.children
  }

  // So it is in every reachable state.
  lemma AbortEnds(actions: seq<Action>, p: nat, cut: Cut)
    requires Enabled(Run(INIT, actions), AbortSettles(p, cut))
    ensures var w := Run(INIT, actions); EndsAbort(w, Step(w, AbortSettles(p, cut)), p, cut)
  {
    ReachableSession(actions, p);
    SettledEnds(Run(INIT, actions), p, cut);
  }

  lemma SettledEnds(w: World, p: nat, cut: Cut)
    requires LockInv(w) && LeaseInv(w, At(w, p)) && OwnerInv(At(w, p)) && Enabled(w, AbortSettles(p, cut))
    ensures EndsAbort(w, Step(w, AbortSettles(p, cut)), p, cut)
  {
    IdleHeld(w.disk.bytes);
  }

  // A child whose exit was awaited for the first time, by the session that holds the
  // lease for it, leaves an idle journal and an idle lease, or, if the journal cannot be
  // written, a closed session without a lease. Any other wait touches neither.
  ghost predicate Clears(w: World, t: World, p: nat, cut: Cut) {
    var s := At(w, p);
    var awaited := s.lastReaped != s.handle && s.writer == s.handle && s.lease.Some?;
    && (awaited && s.lease == Some(Lease(s.handle, false)) && cut.Whole? ==>
          && At(t, p) == s.(handle := None, lastReaped := s.handle, writer := None, lease := Some(Lease(None, false)))
          && Read(t.disk.bytes) == IsIdle && t.disk.holder == Some(p))
    && (awaited && !(s.lease == Some(Lease(s.handle, false)) && cut.Whole?) ==>
          At(t, p) == s.(lease := None, alive := false, killed := true) && t.disk.holder.None?)
    && (!awaited ==> At(t, p) == s.(handle := None, lastReaped := s.handle) && t.disk == w.disk)
    && t.children == w.children
  }

  // So it is in every reachable state.
  lemma ReapClears(actions: seq<Action>, p: nat, cut: Cut)
    requires Enabled(Run(INIT, actions), Reap(p, cut))
    ensures var w := Run(INIT, actions); Clears(w, Step(w, Reap(p, cut)), p, cut)
  {
    ReachableSession(actions, p);
    ReapedClears(Run(INIT, actions), p, cut);
  }

  lemma ReapedClears(w: World, p: nat, cut: Cut)
    requires LockInv(w) && LeaseInv(w, At(w, p)) && OwnerInv(At(w, p)) && Enabled(w, Reap(p, cut))
    ensures Clears(w, Step(w, Reap(p, cut)), p, cut)
  {
    var s := At(w, p);
    if s.lastReaped != s.handle && s.writer == s.handle && s.lease.Some? {
      if s.lease == Some(Lease(s.handle, false)) && cut.Whole? {
        ReapedWell(w, p);
      } else {
        ReapedBadly(w, p, cut);
      }
    } else {
      ReapedAside(w, p, cut);
    }
  }

  lemma ReapedWell(w: World, p: nat)
    requires LockInv(w) && Enabled(w, Reap(p, Whole))
    requires var s := At(w, p); s.lastReaped != s.handle == s.writer && s.lease == Some(Lease(s.handle, false))
    ensures Clears(w, Reaped(w, p, At(w, p).handle.value, Whole), p, Whole)
  {
    var h := At(w, p).handle.value;
    ClearedFrees(w, p);
    ReapedIs(w, p, h, Whole);
    var t := ClearedBy(w, p, Whole).0;
    PutAt(t, p, At(t, p).(handle := None, lastReaped := Some(h), writer := None));
  }

  lemma ReapedBadly(w: World, p: nat, cut: Cut)
    requires LockInv(w) && OwnerInv(At(w, p)) && Enabled(w, Reap(p, cut))
    requires var s := At(w, p); s.lastReaped != s.handle == s.writer && s.lease.Some?
    requires !(At(w, p).lease == Some(Lease(At(w, p).handle, false)) && cut.Whole?)
    ensures Clears(w, Reaped(w, p, At(w, p).handle.value, cut), p, cut)
  {
    var (cleared, ok) := ClearedBy(w, p, cut);
    assert !ok;
    PutAt(cleared, p, At(cleared, p).(alive := false, killed := true));
    ReleasedStarts(Put(cleared, p, At(cleared, p).(alive := false, killed := true)), p);
  }

  lemma ReapedAside(w: World, p: nat, cut: Cut)
    requires Enabled(w, Reap(p, cut))
    requires var s := At(w, p); !(s.lastReaped != s.handle && s.writer == s.handle && s.lease.Some?)
    ensures Clears(w, Reaped(w, p, At(w, p).handle.value, cut), p, cut)
  {
    var s := At(w, p);
    PutAt(w, p, s.(handle := None, lastReaped := s.handle));
  }

  // A recovery by hand clears the journal if and only if it names a valid owner, nobody
  // holds the lock, and the journal is active under exactly that owner.
  lemma RecoverClears(actions: seq<Action>, owner: string)
    requires var w := Run(INIT, actions); Enabled(w, Recover(owner, Whole)) && Read(w.disk.bytes) != IsIdle
    ensures var w := Run(INIT, actions); var t := Step(w, Recover(owner, Whole));
            && (Read(t.disk.bytes) == IsIdle
                <==> ValidOwner(owner) && w.disk.holder.None? && Read(w.disk.bytes) == IsActive(owner))
            && t == w.(disk := w.disk.(bytes := t.disk.bytes))
            && (Read(t.disk.bytes) != IsIdle ==> t == w)
  {
    IdleHeld(Run(INIT, actions).disk.bytes);
  }

  // Preparing leaves the session with a lease if and only if it had or could get one, and
  // either may use it or still has a child or a launch that depends on it.
  lemma PrepareHolds(actions: seq<Action>, p: nat, contextOk: bool)
    ensures var w := Run(INIT, actions); var t := Step(w, Prepare(p, contextOk)); var s := At(w, p);
            && (At(t, p).lease.Some?
                <==> (s.lease.Some? || (!s.killed && w.disk.holder.None? && Read(w.disk.bytes) == IsIdle))
                     && ((!s.killed && contextOk) || s.writer.Some? || !s.launch.NoLaunch?))
            && (At(t, p).lease.Some? ==> At(t, p).lease == if s.lease.Some? then s.lease else Some(Lease(None, false)))
            && OnlyLease(w, t, p)
  {
    ReachableSession(actions, p);
  }

  // What the spawn task leaves, and what the waiting launch will see of it.
  lemma SpawnEnds(w: World, p: nat, a: Action)
    requires Enabled(w, a) && (a.SpawnCreates? || a.SpawnOSError? || a.SpawnRaises?) && a.p == p
    ensures var t := Step(w, a); var s := At(w, p);
            && t.children == (if a.SpawnCreates? || (a.SpawnRaises? && a.childLeft)
                              then w.children + multiset{s.launch.owner} else w.children)
            && At(t, p) == s.(launch := At(t, p).launch) && At(t, p).launch.owner == s.launch.owner
            && (At(t, p).launch.Created? <==> a.SpawnCreates?)
            && (At(t, p).launch.NotCreated? <==> a.SpawnOSError?)
            && t.disk == w.disk
  {
  }

  // Closing a session touches neither lease nor journal nor child; a cancelled launch goes
  // on under its cleanup.
  lemma ClosingKeeps(w: World, p: nat, a: Action)
    requires Enabled(w, a) && (a.Cancel? || a.Kill? || a.OutputEnds?) && a.p == p
    ensures var t := Step(w, a); var s := At(w, p);
            && !At(t, p).alive && (At(t, p).killed <==> s.killed || !a.OutputEnds?)
            && (At(t, p).aborting <==> s.aborting || a.Cancel?)
            && At(t, p) == s.(alive := false, killed := At(t, p).killed, aborting := At(t, p).aborting)
            && t == w.(sessions := t.sessions) && OnlySession(w, t, p)
  {
  }

  // A supervisor that dies leaves its journal as it is and nothing locked. A child being
  // started may still come up, and no other.
  lemma CrashLeavesMark(actions: seq<Action>, p: nat, lateChild: bool)
    ensures var w := Run(INIT, actions); var t := Step(w, Crash(p, lateChild)); var s := At(w, p);
            && At(t, p) == GONE && t.disk.bytes == w.disk.bytes
            && t.disk.holder == (if w.disk.holder == Some(p) then None else w.disk.holder)
            && t.children == w.children + (if s.launch.Spawning? && lateChild then multiset{s.launch.owner} else multiset{})
            && (forall q: nat :: q != p ==> At(t, q) == At(w, q))
            && (s.launch.Spawning? ==> Read(t.disk.bytes) == IsActive(s.launch.owner))
  {
    ReachableSession(actions, p);
    ReachableLaunch(actions, p);
    CrashedMark(Run(INIT, actions), p, lateChild);
  }

  lemma ReachableLaunch(actions: seq<Action>, p: nat)
    ensures LaunchInv(Run(INIT, actions), At(Run(INIT, actions), p))
  {
    InitInv();
    RunInv(INIT, actions);
  }

  lemma CrashedMark(w: World, p: nat, lateChild: bool)
    requires LockInv(w)
    ensures var t := Step(w, Crash(p, lateChild)); var s := At(w, p);
            && At(t, p) == GONE && t.disk.bytes == w.disk.bytes
            && t.disk.holder == (if w.disk.holder == Some(p) then None else w.disk.holder)
            && t.children == w.children + (if s.launch.Spawning? && lateChild then multiset{s.launch.owner} else multiset{})
            && (forall q: nat :: q != p ==> At(t, q) == At(w, q))
  {
    ReleasedStarts(w, p);
    PutAt(Released(w, p), p, GONE);
    assert w.children + multiset{} == w.children;
  }

  // ---- A child after a child --------------------------------------------------------------------

  lemma {:induction false} RunConcat(w: World, a: seq<Action>, b: seq<Action>)
    ensures Run(w, a + b) == Run(Run(w, a), b)
    decreases |a|
  {
    if a == [] {
      assert a + b == b;
    } else {
      assert (a + b)[1..] == a[1..] + b;
      RunConcat(if Enabled(w, a[0]) then Step(w, a[0]) else w, a[1..], b);
    }
  }

  lemma RunOne(w: World, a: Action)
    requires Enabled(w, a)
    ensures Run(w, [a]) == Step(w, a)
  {
    assert [a][1..] == [];
    assert Run(Step(w, a), []) == Step(w, a);
  }

  lemma RunNext(w: World, a: seq<Action>, b: Action)
    requires Enabled(Run(w, a), b)
    ensures Run(w, a + [b]) == Step(Run(w, a), b)
  {
    RunConcat(w, a, [b]);
    RunOne(Run(w, a), b);
  }

  // A new session, a free lock, an idle journal and no child.
  ghost predicate Free(w: World, p: nat) {
    && At(w, p) == FRESH && w.disk.holder.None? && Read(w.disk.bytes) == IsIdle && w.children == multiset{}
  }

  // A session whose launch was just answered by a child, the only one.
  ghost predicate Runs(w: World, p: nat, o: string) {
    && At(w, p) == FRESH.(lease := Some(Lease(Some(o), false)), launch := Created(o))
    && w.disk.holder == Some(p) && Read(w.disk.bytes) == IsActive(o) && w.children == multiset{o}
  }

  function Starting(p: nat, j: Journal): seq<Action> {
    [LaunchProcess(p, true, j, Whole)] + [SpawnCreates(p)]
  }

  // The child ends, its exit is awaited, and the session closes.
  function Ending(p: nat, o: string): seq<Action> {
    [LaunchReturns(p, Whole)] + [ChildDies(o)] + [Reap(p, Whole)] + [Kill(p)] + [Release(p)]
  }

  lemma StartingRuns(w: World, p: nat, j: Journal)
    requires Free(w, p) && WellFormed(j) && j.Active? && |Encode(j)| <= MAX_JOURNAL && j.owner !in w.used
    ensures Runs(Run(w, Starting(p, j)), p, j.owner)
    ensures forall q: nat :: q != p ==> At(Run(w, Starting(p, j)), q) == At(w, q)
    ensures Run(w, Starting(p, j)).used == w.used + {j.owner}
  {
    var a, b := LaunchProcess(p, true, j, Whole), SpawnCreates(p);
    RunOne(w, a);
    var t := Step(w, a);
    PreparedStarts(w, p, true);
    LaunchedIs(w, p, true, j, Whole);
    MarkedStarts(Prepared(w, p, true).0, p, j, Whole);
    assert At(t, p) == FRESH.(lease := Some(Lease(Some(j.owner), false)), launch := Spawning(j.owner));
    RunOne(t, b);
    RunConcat(w, [a], [b]);
  }

  lemma EndingFrees(w: World, p: nat, o: string)
    requires Runs(w, p, o)
    ensures var t := Run(w, Ending(p, o));
            && t.disk.holder.None? && Read(t.disk.bytes) == IsIdle && t.children == multiset{}
            && (forall q: nat :: q != p ==> At(t, q) == At(w, q))
            && t.used == w.used
  {
    var a, b, c, d, e := LaunchReturns(p, Whole), ChildDies(o), Reap(p, Whole), Kill(p), Release(p);
    var ended := Step(Step(w, a), b);
    DiedFrees(w, p, o);
    ReapFrees(ended, p, o);
    RunOne(w, a);
    RunNext(w, [a], b);
    RunNext(w, [a] + [b], c);
    RunNext(w, [a] + [b] + [c], d);
    RunNext(w, [a] + [b] + [c] + [d], e);
    ClosedFrees(Step(ended, c), p);
  }

  lemma DiedFrees(w: World, p: nat, o: string)
    requires Runs(w, p, o)
    ensures Enabled(w, LaunchReturns(p, Whole))
    ensures var t := Step(Step(w, LaunchReturns(p, Whole)), ChildDies(o));
            && At(t, p) == FRESH.(lease := Some(Lease(Some(o), false)), writer := Some(o), handle := Some(o))
            && t.children == multiset{} && t.used == w.used && t.disk == w.disk
            && (forall q: nat :: q != p ==> At(t, q) == At(w, q))
  {
  }

  lemma ClosedFrees(w: World, p: nat)
    requires At(w, p).lease.Some?
    ensures var t := Step(Step(w, Kill(p)), Release(p));
            t.disk == w.disk.(holder := None) && OnlySession(w, t, p) && t.used == w.used
  {
    PutAt(w, p, At(w, p).(alive := false, killed := true));
  }

  lemma ClearedFrees(w: World, p: nat)
    requires At(w, p).lease.Some? && MayClear(At(w, p).lease.value)
    ensures var (t, ok) := ClearedBy(w, p, Whole);
            && ok && At(t, p) == At(w, p).(lease := Some(Lease(None, false)))
            && Read(t.disk.bytes) == IsIdle && t.disk.holder == w.disk.holder
            && OnlySession(w, t, p) && t.used == w.used
  {
    IdleHeld(w.disk.bytes);
  }

  lemma ReapedIs(w: World, p: nat, h: string, cut: Cut)
    requires var s := At(w, p); s.lastReaped != Some(h) && s.writer == Some(h) && s.lease.Some?
    requires ClearedBy(w, p, cut).1
    ensures var t := ClearedBy(w, p, cut).0;
            Reaped(w, p, h, cut) == Put(t, p, At(t, p).(handle := None, lastReaped := Some(h), writer := None))
  {
  }

  lemma ReapFrees(w: World, p: nat, o: string)
    requires At(w, p) == FRESH.(lease := Some(Lease(Some(o), false)), writer := Some(o), handle := Some(o))
    ensures var t := Reaped(w, p, o, Whole);
            && At(t, p).lease == Some(Lease(None, false)) && Read(t.disk.bytes) == IsIdle
            && OnlySession(w, t, p) && t.used == w.used && t.disk.holder == w.disk.holder
  {
    ClearedFrees(w, p);
    ReapedIs(w, p, o, Whole);
    var t := ClearedBy(w, p, Whole).0;
    PutAt(t, p, At(t, p).(handle := None, lastReaped := Some(o), writer := None));
  }

  // Whatever two sessions: one starts a child, awaits its end and closes, and the other
  // then starts the next. Each child lives while the journal names it.
  lemma ChildAfterChild(p: nat, q: nat, first: Journal, second: Journal)
    requires p != q && WellFormed(first) && first.Active? && WellFormed(second) && second.Active?
    requires first.owner != second.owner && |Encode(first)| <= MAX_JOURNAL && |Encode(second)| <= MAX_JOURNAL
    ensures var one := Run(INIT, Starting(p, first));
            var ended := Run(one, Ending(p, first.owner));
            var two := Run(ended, Starting(q, second));
            && one.children == multiset{first.owner} && Read(one.disk.bytes) == IsActive(first.owner)
            && ended.children == multiset{} && Read(ended.disk.bytes) == IsIdle
            && two.children == multiset{second.owner} && Read(two.disk.bytes) == IsActive(second.owner)
  {
    StartingRuns(INIT, p, first);
    var one := Run(INIT, Starting(p, first));
    EndingFrees(one, p, first.owner);
    var ended := Run(one, Ending(p, first.owner));
    assert At(ended, q) == At(one, q) == At(INIT, q);
    StartingRuns(ended, q, second);
  }

  // So the bound on children is attained.
  lemma SomeChildLives()
    ensures exists actions :: |Run(INIT, actions).children| == 1
  {
    var owner := seq(OWNER_LENGTH, _ => '0');
    var one := "1";
    var j := Active(owner, one, one);
    assert one[0] == '1' && Digit(one[0]);
    assert ValidOwner(owner) && ValidPid(one) && ValidStarted(one);
    EncodedSize(owner, one, one);
    StartingRuns(INIT, 0, j);
    assert |Run(INIT, Starting(0, j)).children| == 1;
  }
}
