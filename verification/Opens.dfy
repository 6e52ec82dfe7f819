// Opening, resuming and closing sessions: which open request may still register the
// child it started, with suspension points between its check and its registration.
module Opens {
  import opened Common

  datatype Key = Key(agentId: string, sid: string)

  datatype Generation = Generation(launchId: Option<string>, resume: bool)

  // Locks, requests and sessions are told apart by tokens; a new one is never reused.
  datatype Lock = Lock(key: Key, token: nat)

  datatype Table = Table(
    agents: set<string>,
    stopped: bool,
    ptys: map<Key, nat>,
    launchIds: map<Key, Option<string>>,
    locks: map<Key, Lock>,
    users: map<Key, nat>,
    requests: map<Key, nat>,
    generations: map<Key, Generation>)

  // ---- The open table -------------------------------------------------------------------

  // In-flight callers keep the old lock but may no longer launch or register.
  function Invalidate(t: Table, key: Key): Table {
    t.(locks := t.locks - {key}, users := t.users - {key},
       requests := t.requests - {key}, generations := t.generations - {key})
  }

  // A tokenless reconnect does not downgrade a live or pending modern session.
  predicate Downgrades(t: Table, key: Key, launchId: Option<string>) {
    launchId.None?
    && ((key in t.launchIds && t.launchIds[key].Some?)
        || (key in t.generations && t.generations[key].launchId.Some?))
  }

  predicate Accepts(t: Table, key: Key, launchId: Option<string>) {
    !t.stopped && key.agentId in t.agents && !Downgrades(t, key, launchId)
  }

  function Count(users: map<Key, nat>, key: Key): nat {
    if key in users then users[key] else 0
  }

  predicate SameGeneration(t: Table, key: Key, g: Generation) {
    key in t.generations && t.generations[key] == g
  }

  // One more opener; a different generation replaces the pending request.
  function BeginOpen(t: Table, key: Key, g: Generation, lock: Lock, request: nat): Table {
    t.(locks := if key in t.locks then t.locks else t.locks[key := lock],
       users := t.users[key := Count(t.users, key) + 1],
       requests := if SameGeneration(t, key, g) then t.requests else t.requests[key := request],
       generations := if SameGeneration(t, key, g) then t.generations else t.generations[key := g])
  }

  // The opener leaves; the last one clears the entry, unless it was invalidated.
  function LeaveOpen(t: Table, key: Key, lock: Lock): Table {
    if key in t.locks && t.locks[key] == lock then
      if Count(t.users, key) <= 1 then Invalidate(t, key)
      else t.(users := t.users[key := t.users[key] - 1])
    else t
  }

  predicate Current(t: Table, key: Key, lock: Lock, request: nat) {
    && !t.stopped && key.agentId in t.agents
    && key in t.locks && t.locks[key] == lock
    && key in t.requests && t.requests[key] == request
  }

  function Register(t: Table, key: Key, session: nat, launchId: Option<string>): Table {
    t.(ptys := t.ptys[key := session], launchIds := t.launchIds[key := launchId])
  }

  function Unregister(t: Table, key: Key): Table {
    t.(ptys := t.ptys - {key}, launchIds := t.launchIds - {key})
  }

  // Whether a control frame addresses the pending generation or, without one, the
  // registered launch.
  predicate Addresses(t: Table, key: Key, launchId: Option<string>) {
    launchId == if key in t.generations then t.generations[key].launchId
                else if key in t.launchIds then t.launchIds[key] else None
  }

  function Close(t: Table, key: Key): Table {
    Unregister(Invalidate(t, key), key)
  }

  function Without<T>(m: map<Key, T>, agents: set<string>): map<Key, T> {
    map key | key in m && key.agentId !in agents :: m[key]
  }

  // The directory is authoritative: what an update no longer lists is closed. The new
  // directory is in force first; its removed agents are closed after a suspension, in
  // which anything may happen, another update that lists them again included.
  function Retire(t: Table, removed: set<string>): Table {
    Table(t.agents, t.stopped, Without(t.ptys, removed), Without(t.launchIds, removed),
          Without(t.locks, removed), Without(t.users, removed),
          Without(t.requests, removed), Without(t.generations, removed))
  }

  // The registered sessions of removed agents.
  function Doomed(t: Table, removed: set<string>): set<nat> {
    set key | key in t.ptys && key.agentId in removed :: t.ptys[key]
  }

  // All keys of removed agents are gone but those still to be looked at.
  ghost function Dropped<T>(m: map<Key, T>, removed: set<string>, ahead: set<Key>): map<Key, T> {
    map key | key in m && (key.agentId !in removed || key in ahead) :: m[key]
  }

  ghost predicate SameOpens<A, B, C, D>(a: map<Key, A>, b: map<Key, B>, c: map<Key, C>, d: map<Key, D>) {
    && (forall key :: key in a <==> key in b)
    && (forall key :: key in a <==> key in c)
    && (forall key :: key in a <==> key in d)
  }

  lemma DroppedBounds<T>(m: map<Key, T>, removed: set<string>, ahead: set<Key>)
    requires forall key :: key in m ==> key in ahead
    ensures Dropped(m, removed, ahead) == m && Dropped(m, removed, {}) == Without(m, removed)
  {
  }

  lemma DroppedStep<T>(m: map<Key, T>, removed: set<string>, ahead: set<Key>, key: Key)
    ensures Dropped(m, removed, ahead - {key})
         == if key.agentId in removed then Dropped(m, removed, ahead) - {key} else Dropped(m, removed, ahead)
  {
  }

  function Shutdown(t: Table): Table {
    if t.stopped then t else Table(t.agents, true, map[], map[], map[], map[], map[], map[])
  }

  // The four open maps have the same keys, as have the two session maps.
  ghost predicate Shape(t: Table) {
    && (forall key :: key in t.locks <==> key in t.users)
    && (forall key :: key in t.locks <==> key in t.requests)
    && (forall key :: key in t.locks <==> key in t.generations)
    && (forall key :: key in t.ptys <==> key in t.launchIds)
    && (forall key :: key in t.users ==> t.users[key] > 0)
  }

  lemma BeginShape(t: Table, key: Key, g: Generation, lock: Lock, request: nat)
    requires Shape(t)
    ensures var u := BeginOpen(t, key, g, lock, request);
            Shape(u) && key in u.locks && key in u.requests
  {
    var u := BeginOpen(t, key, g, lock, request);
    forall k
      ensures k in u.locks <==> k in t.locks || k == key
      ensures k in u.users <==> k in t.users || k == key
      ensures k in u.requests <==> k in t.requests || k == key
      ensures k in u.generations <==> k in t.generations || k == key
    {}
  }

  lemma RetireShape(t: Table, removed: set<string>)
    requires Shape(t)
    ensures Shape(Retire(t, removed))
  {
  }

  // ---- The same, updated in place ----------------------------------------------------------

  class OpenTable {
    var agents: set<string>
    var stopped: bool
    var ptys: map<Key, nat>
    var launchIds: map<Key, Option<string>>
    var locks: map<Key, Lock>
    var users: map<Key, nat>
    var requests: map<Key, nat>
    var generations: map<Key, Generation>
    var tokens: nat

    ghost function State(): Table
      reads this
    {
      Table(agents, stopped, ptys, launchIds, locks, users, requests, generations)
    }

    ghost predicate Valid()
      reads this
    {
      Shape(State())
    }

    constructor ()
      ensures Valid() && State() == Table({}, false, map[], map[], map[], map[], map[], map[])
    {
      agents, stopped, tokens := {}, false, 0;
      ptys, launchIds := map[], map[];
      locks, users, requests, generations := map[], map[], map[], map[];
    }

    // Returns the lock and the request of the opener that begins.
    method Begin(key: Key, g: Generation) returns (entered: Option<(Lock, nat)>)
      requires Valid()
      modifies this
      ensures Valid() && tokens >= old(tokens)
      ensures entered.Some? <==> Accepts(old(State()), key, g.launchId)
      ensures entered.Some? <==>
                && !old(stopped) && key.agentId in old(agents)
                && (g.launchId.Some?
                    || ((key in old(launchIds) ==> old(launchIds)[key].None?)
                        && (key in old(generations) ==> old(generations)[key].launchId.None?)))
      ensures entered.None? ==> State() == old(State())
      ensures entered.Some? ==>
                && State() == BeginOpen(old(State()), key, g, Lock(key, old(tokens)), old(tokens) + 1)
                && Current(State(), key, entered.value.0, entered.value.1)
      ensures entered.Some? ==>
                && generations == old(generations)[key := g]
                && locks == (if key in old(locks) then old(locks) else old(locks)[key := entered.value.0])
                && (key !in old(generations) || old(generations)[key] != g ==> requests == old(requests)[key := entered.value.1])
                && (key !in old(generations) || old(generations)[key] != g ==> entered.value.1 == old(tokens) + 1)
                && (key in old(generations) && old(generations)[key] == g ==> requests == old(requests))
                && ptys == old(ptys) && launchIds == old(launchIds)
    {
      if stopped || key.agentId !in agents {
        return None;
      }
      if g.launchId.None? && ((key in launchIds && launchIds[key].Some?)
                              || (key in generations && generations[key].launchId.Some?)) {
        return None;
      }
      Enroll(key, g);
      entered := Some((locks[key], requests[key]));
    }

    method Enroll(key: Key, g: Generation)
      requires Valid()
      modifies this`locks, this`users, this`requests, this`generations, this`tokens
      ensures tokens > old(tokens) && Valid() && key in locks && key in requests
      ensures State() == BeginOpen(old(State()), key, g, Lock(key, old(tokens)), old(tokens) + 1)
      ensures generations == old(generations)[key := g]
      ensures locks == if key in old(locks) then old(locks) else old(locks)[key := Lock(key, old(tokens))]
      ensures requests == if key in old(generations) && old(generations)[key] == g then old(requests)
                          else old(requests)[key := old(tokens) + 1]
    {
      BeginShape(State(), key, g, Lock(key, tokens), tokens + 1);
      Pend(key, g);
      assert key in old(generations) && old(generations)[key] == g ==> old(generations)[key := g] == old(generations);
    }

    method Pend(key: Key, g: Generation)
      modifies this`locks, this`users, this`requests, this`generations, this`tokens
      ensures tokens > old(tokens)
      ensures State() == BeginOpen(old(State()), key, g, Lock(key, old(tokens)), old(tokens) + 1)
    {
      var same := key in generations && generations[key] == g;
      locks := if key in locks then locks else locks[key := Lock(key, tokens)];
      users := users[key := (if key in users then users[key] else 0) + 1];
      requests := if same then requests else requests[key := tokens + 1];
      generations := if same then generations else generations[key := g];
      tokens := tokens + 2;
    }

    method InvalidateOpen(key: Key)
      requires Valid()
      modifies this`locks, this`users, this`requests, this`generations
      ensures Valid() && State() == Invalidate(old(State()), key)
      ensures locks == old(locks) - {key} && users == old(users) - {key}
      ensures requests == old(requests) - {key} && generations == old(generations) - {key}
    {
      locks := locks - {key};
      users := users - {key};
      requests := requests - {key};
      generations := generations - {key};
    }

    method Leave(key: Key, lock: Lock)
      requires Valid()
      modifies this`locks, this`users, this`requests, this`generations
      ensures Valid() && State() == LeaveOpen(old(State()), key, lock)
      ensures key in old(locks) && old(locks)[key] == lock && old(users)[key] == 1 ==>
                && locks == old(locks) - {key} && users == old(users) - {key}
                && requests == old(requests) - {key} && generations == old(generations) - {key}
      ensures !(key in old(locks) && old(locks)[key] == lock && old(users)[key] == 1) ==>
                && locks == old(locks) && requests == old(requests) && generations == old(generations)
                && users == if key in old(locks) && old(locks)[key] == lock then old(users)[key := old(users)[key] - 1] else old(users)
    {
      if key in locks && locks[key] == lock {
        users := users[key := users[key] - 1];
        if users[key] == 0 {
          ghost var before := users;
          locks := locks - {key};
          users := users - {key};
          requests := requests - {key};
          generations := generations - {key};
          assert before - {key} == old(users) - {key};
        }
      }
    }

    method RegisterSession(key: Key, session: nat, launchId: Option<string>)
      requires Valid()
      modifies this`ptys, this`launchIds
      ensures Valid() && State() == Register(old(State()), key, session, launchId)
      ensures ptys == old(ptys)[key := session] && launchIds == old(launchIds)[key := launchId]
    {
      ptys := ptys[key := session];
      launchIds := launchIds[key := launchId];
    }

    // A stale reader reports the exit of a session that was replaced: no effect.
    method SessionExited(key: Key, session: nat)
      requires Valid()
      modifies this`ptys, this`launchIds
      ensures Valid()
      ensures State() == if key in old(ptys) && old(ptys)[key] == session then Unregister(old(State()), key)
                         else old(State())
      ensures key in old(ptys) && old(ptys)[key] == session ==>
                ptys == old(ptys) - {key} && launchIds == old(launchIds) - {key}
    {
      if key in ptys && ptys[key] == session {
        ptys := ptys - {key};
        launchIds := launchIds - {key};
      }
    }

    // The session to stop, if one is registered.
    method CloseSession(key: Key, launchId: Option<string>) returns (stop: Option<nat>)
      requires Valid()
      modifies this
      ensures Valid()
      ensures State() == if Addresses(old(State()), key, launchId) then Close(old(State()), key) else old(State())
      ensures stop == if Addresses(old(State()), key, launchId) && key in old(ptys) then Some(old(ptys)[key]) else None
      ensures launchId == (if key in old(generations) then old(generations)[key].launchId
                           else if key in old(launchIds) then old(launchIds)[key] else None) ==>
                && locks == old(locks) - {key} && users == old(users) - {key}
                && requests == old(requests) - {key} && generations == old(generations) - {key}
                && ptys == old(ptys) - {key} && launchIds == old(launchIds) - {key}
                && stop == if key in old(ptys) then Some(old(ptys)[key]) else None
      ensures launchId != (if key in old(generations) then old(generations)[key].launchId
                           else if key in old(launchIds) then old(launchIds)[key] else None) ==>
                State() == old(State()) && stop.None?
    {
      var target := if key in generations then generations[key].launchId
                    else if key in launchIds then launchIds[key] else None;
      if launchId != target {
        return None;
      }
      InvalidateOpen(key);
      stop := if key in ptys then Some(ptys[key]) else None;
      ptys := ptys - {key};
      launchIds := launchIds - {key};
    }

    // Takes the new directory over. Returns the agents to be retired.
    method ApplyAgents(updated: set<string>, bound: set<string>) returns (removed: set<string>)
      requires Valid()
      modifies this`agents
      ensures Valid() && State() == old(State()).(agents := updated)
      ensures forall agent :: agent in removed <==> (agent in old(agents) || agent in bound) && agent !in updated
    {
      removed := (agents + bound) - updated;
      agents := updated;
    }

    // Closes the keys of removed agents. Returns their sessions.
    method RetireAgents(removed: set<string>) returns (stop: set<nat>)
      requires Valid()
      modifies this
      ensures Valid() && State() == Retire(old(State()), removed)
      ensures stop == Doomed(old(State()), removed)
      ensures forall x :: x in stop <==> exists key :: key in old(ptys) && key.agentId in removed && old(ptys)[key] == x
      ensures forall key :: key in ptys <==> key in old(ptys) && key.agentId !in removed
      ensures forall key :: key in locks <==> key in old(locks) && key.agentId !in removed
      ensures forall key :: key in ptys ==> ptys[key] == old(ptys)[key] && launchIds[key] == old(launchIds)[key]
      ensures forall key :: key in locks ==> locks[key] == old(locks)[key] && generations[key] == old(generations)[key]
    {
      RetireShape(State(), removed);
      InvalidateAgents(removed);
      stop := StopAgents(removed);
    }

    method InvalidateAgents(removed: set<string>)
      modifies this`locks, this`users, this`requests, this`generations
      ensures locks == Without(old(locks), removed) && users == Without(old(users), removed)
      ensures requests == Without(old(requests), removed) && generations == Without(old(generations), removed)
      requires SameOpens(locks, users, requests, generations)
    {
      var keys := locks.Keys;
      DroppedBounds(locks, removed, keys);
      DroppedBounds(users, removed, keys);
      DroppedBounds(requests, removed, keys);
      DroppedBounds(generations, removed, keys);
      while keys != {}
        invariant locks == Dropped(old(locks), removed, keys) && users == Dropped(old(users), removed, keys)
        invariant requests == Dropped(old(requests), removed, keys) && generations == Dropped(old(generations), removed, keys)
        decreases keys
      {
        var key :| key in keys;
        DroppedStep(old(locks), removed, keys, key);
        DroppedStep(old(users), removed, keys, key);
        DroppedStep(old(requests), removed, keys, key);
        DroppedStep(old(generations), removed, keys, key);
        keys := keys - {key};
        if key.agentId in removed {
          locks := locks - {key};
          users := users - {key};
          requests := requests - {key};
          generations := generations - {key};
        }
      }
    }

    method StopAgents(removed: set<string>) returns (stop: set<nat>)
      requires forall key :: key in ptys <==> key in launchIds
      modifies this`ptys, this`launchIds
      ensures ptys == Without(old(ptys), removed) && launchIds == Without(old(launchIds), removed)
      ensures stop == set key | key in old(ptys) && key.agentId in removed :: old(ptys)[key]
    {
      var keys := ptys.Keys;
      stop := {};
      while keys != {}
        invariant keys <= old(ptys).Keys
        invariant ptys == Dropped(old(ptys), removed, keys) && launchIds == Dropped(old(launchIds), removed, keys)
        invariant stop == set key | key in old(ptys) && key.agentId in removed && key !in keys :: old(ptys)[key]
        decreases keys
      {
        var key :| key in keys;
        keys := keys - {key};
        if key.agentId in removed {
          stop := stop + {ptys[key]};
          ptys := ptys - {key};
          launchIds := launchIds - {key};
        }
      }
    }

    method ShutDown() returns (stop: set<nat>)
      requires Valid()
      modifies this
      ensures Valid() && State() == Shutdown(old(State()))
      ensures stop == if old(stopped) then {} else old(ptys).Values
      ensures stopped && (!old(stopped) ==> ptys == map[] && launchIds == map[] && locks == map[] && users == map[]
                                            && requests == map[] && generations == map[])
    {
      if stopped {
        return {};
      }
      stopped := true;
      locks, users, requests, generations := map[], map[], map[], map[];
      stop := ptys.Values;
      ptys, launchIds := map[], map[];
    }
  }

  // ---- Openers and sessions around the table ---------------------------------------------------

  // Where an opener is suspended.
  datatype Stage =
    | Waiting                    // for the lock
    | Draining                   // for a dead predecessor to close
    | Probing                    // for the availability probe
    | Starting(session: nat)     // for its child to start
    | Stopping(session: nat)     // for its child to close

  predicate Holding(stage: Stage) { !stage.Waiting? }

  datatype Opener = Opener(key: Key, lock: Lock, request: nat, generation: Generation, stage: Stage)

  // `stopping` is set once the session was told to stop; `opener` is who created it.
  datatype Session = Session(key: Key, opener: nat, alive: bool, stopping: bool)

  // `held` says which opener holds a lock.
  datatype Sys = Sys(
    table: Table,
    openers: map<nat, Opener>,
    held: map<Lock, nat>,
    sessions: map<nat, Session>,
    nextToken: nat)

  const INIT := Sys(Table({}, false, map[], map[], map[], map[], map[], map[]), map[], map[], map[], 0)

  datatype Action =
    | Open(key: Key, generation: Generation)
    | Enter(i: nat, adopt: bool)      // `adopt`: surface and context fit the live session
    | Drained(i: nat)
    | Probed(i: nat, available: bool)
    | ChildStarts(session: nat)
    | StartReturns(i: nat)
    | StartRaises(i: nat)
    | ChildClosed(i: nat)
    | Cancel(i: nat)
    | ChildExits(session: nat)
    | ExitReported(session: nat)
    | CloseFrame(key: Key, launchId: Option<string>)
    | ReplaceAgents(agents: set<string>)
    | RetireAgents(removed: set<string>)
    | ShutdownAll

  predicate IsCurrent(s: Sys, o: Opener) {
    Current(s.table, o.key, o.lock, o.request)
  }

  function Goes(s: Sys, i: nat, stage: Stage): Sys
    requires i in s.openers
  {
    s.(openers := s.openers[i := s.openers[i].(stage := stage)])
  }

  function Holds(s: Sys, i: nat): Sys
    requires i in s.openers
  {
    s.(held := s.held[s.openers[i].lock := i])
  }

  function Leaves(s: Sys, i: nat): Sys
    requires i in s.openers
  {
    var o := s.openers[i];
    s.(openers := s.openers - {i},
       held := if Holding(o.stage) then s.held - {o.lock} else s.held,
       table := LeaveOpen(s.table, o.key, o.lock))
  }

  function Stop(s: Sys, session: nat): Sys {
    if session in s.sessions then s.(sessions := s.sessions[session := s.sessions[session].(stopping := true)]) else s
  }

  function StopAll(s: Sys, doomed: set<nat>): Sys {
    s.(sessions := map x | x in s.sessions ::
         if x in doomed then s.sessions[x].(stopping := true) else s.sessions[x])
  }

  function Entered(s: Sys, t: Table, o: Opener): Sys {
    s.(table := t, nextToken := s.nextToken + 3, openers := s.openers[s.nextToken + 2 := o])
  }

  function Creates(s: Sys, y: Session): Sys {
    s.(sessions := s.sessions[s.nextToken := y], nextToken := s.nextToken + 1)
  }

  // `start` raised, was cancelled, or returned to an opener that is not current.
  function Fails(s: Sys, i: nat): Sys
    requires i in s.openers && s.openers[i].stage.Starting?
  {
    var x := s.openers[i].stage.session;
    Goes(Stop(s, x), i, Stopping(x))
  }

  predicate Enabled(s: Sys, a: Action) {
    match a
    case Enter(i, _) => i in s.openers && s.openers[i].stage.Waiting? && s.openers[i].lock !in s.held
    case Drained(i) => i in s.openers && s.openers[i].stage.Draining?
    case Probed(i, _) => i in s.openers && s.openers[i].stage.Probing?
    case ChildStarts(x) => x in s.sessions && exists i :: i in s.openers && s.openers[i].stage == Starting(x)
    case StartReturns(i) => i in s.openers && s.openers[i].stage.Starting?
    case StartRaises(i) => i in s.openers && s.openers[i].stage.Starting?
    case ChildClosed(i) => i in s.openers && s.openers[i].stage.Stopping?
    case Cancel(i) => i in s.openers
    case ChildExits(x) => x in s.sessions
    case ExitReported(x) => x in s.sessions && !s.sessions[x].alive
    case _ => true
  }

  function Step(s: Sys, a: Action): Sys
    requires Enabled(s, a)
  {
    match a
    case Open(key, g) =>
      if !Accepts(s.table, key, g.launchId) then s
      else
        var t := BeginOpen(s.table, key, g, Lock(key, s.nextToken), s.nextToken + 1);
        if key in t.locks && key in t.requests
        then Entered(s, t, Opener(key, t.locks[key], t.requests[key], g, Waiting))
        else s
    case Enter(i, adopt) =>
      var o := s.openers[i];
      if !IsCurrent(s, o) then Leaves(s, i)
      else if o.key !in s.table.ptys then Goes(Holds(s, i), i, Probing)
      else
        var x := s.table.ptys[o.key];
        if x in s.sessions && s.sessions[x].alive then
          if adopt
          then Leaves(s.(table := s.table.(launchIds := s.table.launchIds[o.key := o.generation.launchId])), i)
          else Leaves(s, i)
        else Goes(Holds(Stop(s.(table := Unregister(s.table, o.key)), x), i), i, Draining)
    case Drained(i) => if IsCurrent(s, s.openers[i]) then Goes(s, i, Probing) else Leaves(s, i)
    case Probed(i, available) =>
      var o := s.openers[i];
      if !IsCurrent(s, o) || !available then Leaves(s, i)
      else Goes(Creates(s, Session(o.key, i, false, false)), i, Starting(s.nextToken))
    case ChildStarts(x) => s.(sessions := s.sessions[x := s.sessions[x].(alive := true)])
    case StartReturns(i) =>
      var o := s.openers[i];
      var x := o.stage.session;
      if !IsCurrent(s, o) || x !in s.sessions || !s.sessions[x].alive then Fails(s, i)
      else Leaves(s.(table := Register(s.table, o.key, x, o.generation.launchId)), i)
    case StartRaises(i) => Fails(s, i)
    case ChildClosed(i) => Leaves(s, i)
    case Cancel(i) => if s.openers[i].stage.Starting? then Fails(s, i) else Leaves(s, i)
    case ChildExits(x) => s.(sessions := s.sessions[x := s.sessions[x].(alive := false)])
    case ExitReported(x) =>
      var key := s.sessions[x].key;
      if key in s.table.ptys && s.table.ptys[key] == x then s.(table := Unregister(s.table, key)) else s
    case CloseFrame(key, launchId) =>
      if !Addresses(s.table, key, launchId) then s
      else
        var doomed := if key in s.table.ptys then {s.table.ptys[key]} else {};
        StopAll(s, doomed).(table := Close(s.table, key))
    case ReplaceAgents(agents) => s.(table := s.table.(agents := agents))
    case RetireAgents(removed) => StopAll(s, Doomed(s.table, removed)).(table := Retire(s.table, removed))
    case ShutdownAll =>
      StopAll(s, if s.table.stopped then {} else s.table.ptys.Values).(table := Shutdown(s.table))
  }

  function Run(s: Sys, actions: seq<Action>): Sys
    decreases |actions|
  {
    if actions == [] then s else Run(if Enabled(s, actions[0]) then Step(s, actions[0]) else s, actions[1..])
  }

  // ---- Invariant ------------------------------------------------------------------------------------

  // The openers that came in under a lock.
  function Under(openers: map<nat, Opener>, lock: Lock): set<nat> {
    set i | i in openers && openers[i].lock == lock
  }

  ghost predicate TokenInv(s: Sys) {
    && (forall key :: key in s.table.locks ==> s.table.locks[key].key == key && s.table.locks[key].token < s.nextToken)
    && (forall key :: key in s.table.requests ==> s.table.requests[key] < s.nextToken)
    && (forall i :: i in s.openers ==>
          && i < s.nextToken && s.openers[i].request < s.nextToken
          && s.openers[i].lock.token < s.nextToken && s.openers[i].lock.key == s.openers[i].key)
    && (forall x :: x in s.sessions ==> x < s.nextToken && s.sessions[x].opener < s.nextToken)
  }

  // A lock is held by one opener, one that is past waiting for it.
  ghost predicate LockInv(s: Sys) {
    && (forall i :: i in s.openers && Holding(s.openers[i].stage) ==>
          s.openers[i].lock in s.held && s.held[s.openers[i].lock] == i)
    && (forall l :: l in s.held ==>
          s.held[l] in s.openers && s.openers[s.held[l]].lock == l && Holding(s.openers[s.held[l]].stage))
  }

  // The user count of a key is the number of openers in flight under its lock.
  ghost predicate UserInv(s: Sys) {
    forall key :: key in s.table.locks ==> Count(s.table.users, key) == |Under(s.openers, s.table.locks[key])|
  }

  // Past the check for an existing session, the opener that holds a key's present
  // lock finds none registered.
  ghost predicate ExclusiveInv(s: Sys) {
    forall key :: key in s.table.locks && s.table.locks[key] in s.held ==> key !in s.table.ptys
  }

  // A session that lives and was not told to stop is registered or still being started.
  ghost predicate Accounted(s: Sys, x: nat)
    requires x in s.sessions
  {
    var y := s.sessions[x];
    || y.stopping
    || !y.alive
    || (y.key in s.table.ptys && s.table.ptys[y.key] == x)
    || (y.opener in s.openers && s.openers[y.opener].stage == Starting(x))
  }

  ghost predicate SessionInv(s: Sys) {
    && (forall x :: x in s.sessions ==> Accounted(s, x))
    && (forall key :: key in s.table.ptys ==>
          && s.table.ptys[key] in s.sessions
          && s.sessions[s.table.ptys[key]].key == key
          && s.sessions[s.table.ptys[key]].opener !in s.openers)
    && (forall i :: i in s.openers && (s.openers[i].stage.Starting? || s.openers[i].stage.Stopping?) ==>
          var x := s.openers[i].stage.session;
          x in s.sessions && s.sessions[x].opener == i && s.sessions[x].key == s.openers[i].key)
  }

  ghost predicate Inv(s: Sys) {
    Shape(s.table) && TokenInv(s) && LockInv(s) && UserInv(s) && ExclusiveInv(s) && SessionInv(s)
  }
}
