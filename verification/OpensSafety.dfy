// Safety of opening and closing over every interleaving.
module OpensSafety {
  import opened Common
  import opened Opens

  // ---- Counting openers --------------------------------------------------------------

  lemma UnderAdds(openers: map<nat, Opener>, i: nat, o: Opener, lock: Lock)
    requires i !in openers
    ensures |Under(openers[i := o], lock)| == |Under(openers, lock)| + if o.lock == lock then 1 else 0
  {
    var before, after := Under(openers, lock), Under(openers[i := o], lock);
    assert after == if o.lock == lock then before + {i} else before;
  }

  lemma UnderDrops(openers: map<nat, Opener>, i: nat, lock: Lock)
    requires i in openers
    ensures |Under(openers - {i}, lock)| == |Under(openers, lock)| - if openers[i].lock == lock then 1 else 0
  {
    var before, after := Under(openers, lock), Under(openers - {i}, lock);
    assert after == if openers[i].lock == lock then before - {i} else before;
  }

  lemma UnderStays(openers: map<nat, Opener>, i: nat, stage: Stage, lock: Lock)
    requires i in openers
    ensures Under(openers[i := openers[i].(stage := stage)], lock) == Under(openers, lock)
  {
  }

  // ---- Opening -------------------------------------------------------------------------

  // What an open does to the table.
  ghost predicate Enrolled(s: Sys, t: Table, key: Key) {
    && Shape(t)
    && t.ptys == s.table.ptys
    && key in t.locks
    && (forall k :: k in t.locks ==> k in s.table.locks || k == key)
    && (forall k :: k in s.table.locks ==> k in t.locks && t.locks[k] == s.table.locks[k])
    && (forall k :: k in t.requests ==> t.requests[k] < s.nextToken + 3)
    && (forall k :: k in s.table.locks && k != key ==> Count(t.users, k) == Count(s.table.users, k))
    && Count(t.users, key) == (if key in s.table.locks then Count(s.table.users, key) else 0) + 1
    && (key !in s.table.locks ==> t.locks[key] == Lock(key, s.nextToken))
  }

  lemma BeginEnrolls(s: Sys, key: Key, g: Generation)
    requires Shape(s.table) && TokenInv(s)
    ensures Enrolled(s, BeginOpen(s.table, key, g, Lock(key, s.nextToken), s.nextToken + 1), key)
  {
    var lock := Lock(key, s.nextToken);
    BeginShape(s.table, key, g, lock, s.nextToken + 1);
    BeginCounts(s.table, key, g, lock, s.nextToken + 1);
    BeginRequests(s.table, key, g, lock, s.nextToken + 1);
    BeginSessions(s.table, key, g, lock, s.nextToken + 1);
    EnrolledBy(s, BeginOpen(s.table, key, g, lock, s.nextToken + 1), key);
  }

  lemma EnrolledBy(s: Sys, t: Table, key: Key)
    requires TokenInv(s)
    requires Shape(t) && t.ptys == s.table.ptys && key in t.locks
    requires forall k :: k in t.locks ==> k in s.table.locks || k == key
    requires forall k :: k in s.table.locks ==> k in t.locks && t.locks[k] == s.table.locks[k]
    requires forall k :: k in t.requests ==>
               t.requests[k] == s.nextToken + 1 || (k in s.table.requests && t.requests[k] == s.table.requests[k])
    requires forall k :: k in s.table.locks && k != key ==> Count(t.users, k) == Count(s.table.users, k)
    requires Count(t.users, key) == (if key in s.table.locks then Count(s.table.users, key) else 0) + 1
    requires key !in s.table.locks ==> t.locks[key] == Lock(key, s.nextToken)
    ensures Enrolled(s, t, key)
  {
  }

  lemma BeginSessions(t: Table, key: Key, g: Generation, lock: Lock, request: nat)
    ensures var u := BeginOpen(t, key, g, lock, request);
            && u.ptys == t.ptys && key in u.locks
            && forall k :: k in u.locks ==> k in t.locks || k == key
  {
  }

  lemma BeginRequests(t: Table, key: Key, g: Generation, lock: Lock, request: nat)
    ensures var u := BeginOpen(t, key, g, lock, request);
            forall k :: k in u.requests ==> u.requests[k] == request || (k in t.requests && u.requests[k] == t.requests[k])
  {
  }

  lemma BeginCounts(t: Table, key: Key, g: Generation, lock: Lock, request: nat)
    requires Shape(t)
    ensures var u := BeginOpen(t, key, g, lock, request);
            && (forall k :: k in t.locks ==> k in u.locks && u.locks[k] == t.locks[k])
            && (key !in t.locks ==> u.locks[key] == lock)
            && (forall k :: k in t.locks && k != key ==> Count(u.users, k) == Count(t.users, k))
            && Count(u.users, key) == (if key in t.locks then Count(t.users, key) else 0) + 1
  {
  }

  lemma OpenInv(s: Sys, key: Key, g: Generation)
    requires Inv(s)
    ensures Inv(Step(s, Open(key, g)))
  {
    if Accepts(s.table, key, g.launchId) {
      var t := BeginOpen(s.table, key, g, Lock(key, s.nextToken), s.nextToken + 1);
      BeginEnrolls(s, key, g);
      EnteredInv(s, t, Opener(key, t.locks[key], t.requests[key], g, Waiting));
      OpenEnters(s, key, g);
    }
  }

  lemma OpenEnters(s: Sys, key: Key, g: Generation)
    requires Shape(s.table) && Accepts(s.table, key, g.launchId)
    ensures var t := BeginOpen(s.table, key, g, Lock(key, s.nextToken), s.nextToken + 1);
            && key in t.locks && key in t.requests
            && Step(s, Open(key, g)) == Entered(s, t, Opener(key, t.locks[key], t.requests[key], g, Waiting))
  {
    BeginShape(s.table, key, g, Lock(key, s.nextToken), s.nextToken + 1);
  }

  lemma EnteredInv(s: Sys, t: Table, o: Opener)
    requires Inv(s) && Enrolled(s, t, o.key)
    requires o.lock == t.locks[o.key] && o.request == t.requests[o.key] && o.stage.Waiting?
    ensures Inv(Entered(s, t, o))
  {
    EnteredUsers(s, t, o);
    EnteredTokens(s, t, o);
    EnteredLocks(s, t, o);
    EnteredSessions(s, t, o);
  }

  lemma EnteredTokens(s: Sys, t: Table, o: Opener)
    requires TokenInv(s) && Enrolled(s, t, o.key)
    requires o.lock == t.locks[o.key] && o.request == t.requests[o.key] && o.stage.Waiting?
    ensures TokenInv(Entered(s, t, o))
  {
  }

  lemma EnteredLocks(s: Sys, t: Table, o: Opener)
    requires TokenInv(s) && LockInv(s) && ExclusiveInv(s) && Enrolled(s, t, o.key)
    requires o.lock == t.locks[o.key] && o.stage.Waiting?
    ensures LockInv(Entered(s, t, o)) && ExclusiveInv(Entered(s, t, o))
  {
    var u := Entered(s, t, o);
    forall k | k in t.locks && t.locks[k] in s.held
      ensures k !in t.ptys
    {
      assert s.held[t.locks[k]] in s.openers;
      assert k in s.table.locks;
    }
  }

  lemma EnteredSessions(s: Sys, t: Table, o: Opener)
    requires TokenInv(s) && SessionInv(s) && Enrolled(s, t, o.key) && o.stage.Waiting?
    ensures SessionInv(Entered(s, t, o))
  {
    var u := Entered(s, t, o);
    forall x | x in u.sessions
      ensures Accounted(u, x)
    {
      assert Accounted(s, x);
    }
  }

  lemma EnteredUsers(s: Sys, t: Table, o: Opener)
    requires TokenInv(s) && UserInv(s) && Enrolled(s, t, o.key)
    requires o.lock == t.locks[o.key] && o.lock.key == o.key
    ensures UserInv(Entered(s, t, o))
  {
    var openers := s.openers[s.nextToken + 2 := o];
    forall k | k in t.locks
      ensures Count(t.users, k) == |Under(openers, t.locks[k])|
    {
      EnteredCount(s, t, o, k);
    }
  }

  lemma EnteredCount(s: Sys, t: Table, o: Opener, k: Key)
    requires TokenInv(s) && UserInv(s) && Enrolled(s, t, o.key) && k in t.locks
    requires o.lock == t.locks[o.key] && o.lock.key == o.key
    ensures Count(t.users, k) == |Under(s.openers[s.nextToken + 2 := o], t.locks[k])|
  {
    UnderAdds(s.openers, s.nextToken + 2, o, t.locks[k]);
    if k !in s.table.locks {
      NobodyUnder(s, Lock(k, s.nextToken));
    } else {
      assert t.locks[k].key == k;
    }
  }

  lemma NobodyUnder(s: Sys, lock: Lock)
    requires TokenInv(s) && lock.token >= s.nextToken
    ensures Under(s.openers, lock) == {}
  {
  }

  // ---- Leaving ----------------------------------------------------------------------------

  // Entries go from the open maps, whole keys at a time; the session maps stay.
  ghost predicate Shrunk(t: Table, u: Table) {
    && Shape(u)
    && u.ptys == t.ptys
    && (forall k :: k in u.locks ==> k in t.locks && u.locks[k] == t.locks[k])
    && (forall k :: k in u.requests ==> k in t.requests && u.requests[k] == t.requests[k])
  }

  lemma LeaveShrinks(t: Table, key: Key, lock: Lock)
    requires Shape(t)
    ensures Shrunk(t, LeaveOpen(t, key, lock))
    ensures var u := LeaveOpen(t, key, lock);
            forall k :: k in u.locks ==>
              Count(u.users, k) == Count(t.users, k) - if k == key && t.locks[k] == lock then 1 else 0
  {
    if key in t.locks && t.locks[key] == lock {
      if Count(t.users, key) <= 1 {
        InvalidateShrinks(t, key);
      } else {
        OneUserLess(t, key);
      }
    }
  }

  lemma InvalidateShrinks(t: Table, key: Key)
    requires Shape(t)
    ensures Shrunk(t, Invalidate(t, key)) && key !in Invalidate(t, key).locks
    ensures forall k :: k in Invalidate(t, key).locks ==> Count(Invalidate(t, key).users, k) == Count(t.users, k)
  {
  }

  lemma OneUserLess(t: Table, key: Key)
    requires Shape(t) && key in t.users && t.users[key] > 1
    ensures Shrunk(t, t.(users := t.users[key := t.users[key] - 1]))
  {
  }

  lemma LeavesInv(s: Sys, i: nat)
    requires Inv(s) && i in s.openers
    requires !s.openers[i].stage.Starting?
    ensures Inv(Leaves(s, i))
  {
    var o := s.openers[i];
    LeaveShrinks(s.table, o.key, o.lock);
    LeavesUsers(s, i);
    LeavesLocks(s, i);
    LeavesSessions(s, i);
  }

  lemma LeavesLocks(s: Sys, i: nat)
    requires Shape(s.table) && LockInv(s) && ExclusiveInv(s) && TokenInv(s) && i in s.openers
    ensures LockInv(Leaves(s, i)) && ExclusiveInv(Leaves(s, i)) && TokenInv(Leaves(s, i))
  {
    var o := s.openers[i];
    LeaveShrinks(s.table, o.key, o.lock);
  }

  lemma LeavesSessions(s: Sys, i: nat)
    requires Shape(s.table) && SessionInv(s) && i in s.openers && !s.openers[i].stage.Starting?
    ensures SessionInv(Leaves(s, i))
  {
    var o := s.openers[i];
    LeaveShrinks(s.table, o.key, o.lock);
    var t := Leaves(s, i);
    forall x | x in t.sessions
      ensures Accounted(t, x)
    {
      assert Accounted(s, x);
    }
  }

  lemma LeavesUsers(s: Sys, i: nat)
    requires Shape(s.table) && TokenInv(s) && UserInv(s) && i in s.openers
    ensures UserInv(Leaves(s, i))
  {
    var t := Leaves(s, i);
    var o := s.openers[i];
    LeaveShrinks(s.table, o.key, o.lock);
    forall k | k in t.table.locks
      ensures Count(t.table.users, k) == |Under(t.openers, t.table.locks[k])|
    {
      UnderDrops(s.openers, i, s.table.locks[k]);
    }
  }

  // ---- Moving on ----------------------------------------------------------------------------

  // What an opener's next stage needs.
  ghost predicate Ready(s: Sys, i: nat, stage: Stage)
    requires i in s.openers
  {
    && Holding(stage)
    && (stage.Starting? || stage.Stopping? ==>
          stage.session in s.sessions && s.sessions[stage.session].opener == i
          && s.sessions[stage.session].key == s.openers[i].key)
    // A child that was being started is now told to stop.
    && (s.openers[i].stage.Starting? ==>
          var x := s.openers[i].stage.session;
          s.openers[i].stage == stage || (x in s.sessions && s.sessions[x].stopping))
  }

  lemma GoesInv(s: Sys, i: nat, stage: Stage)
    requires Inv(s) && i in s.openers && Ready(s, i, stage)
    requires Holding(s.openers[i].stage)
    ensures Inv(Goes(s, i, stage))
  {
    GoesUsers(s, i, stage);
    GoesSessions(s, i, stage);
  }

  lemma GoesUsers(s: Sys, i: nat, stage: Stage)
    requires UserInv(s) && i in s.openers
    ensures UserInv(Goes(s, i, stage))
  {
    var t := Goes(s, i, stage);
    forall k | k in t.table.locks
      ensures Count(t.table.users, k) == |Under(t.openers, t.table.locks[k])|
    {
      UnderStays(s.openers, i, stage, s.table.locks[k]);
    }
  }

  lemma GoesSessions(s: Sys, i: nat, stage: Stage)
    requires SessionInv(s) && i in s.openers && Ready(s, i, stage)
    ensures SessionInv(Goes(s, i, stage))
  {
    var t := Goes(s, i, stage);
    forall x | x in t.sessions
      ensures Accounted(t, x)
    {
      assert Accounted(s, x);
    }
  }

  // An opener gets the lock and goes past the check for an existing session.
  lemma HoldsInv(s: Sys, i: nat, stage: Stage)
    requires Inv(s) && i in s.openers && s.openers[i].stage.Waiting? && s.openers[i].lock !in s.held
    requires stage.Probing? || stage.Draining?
    requires s.openers[i].key !in s.table.ptys
    ensures Inv(Goes(Holds(s, i), i, stage))
  {
    HoldsLocks(s, i, stage);
    assert UserInv(Holds(s, i)) by {
      assert Holds(s, i).openers == s.openers;
    }
    GoesUsers(Holds(s, i), i, stage);
    HoldsSessions(s, i);
    GoesSessions(Holds(s, i), i, stage);
  }

  lemma HoldsLocks(s: Sys, i: nat, stage: Stage)
    requires TokenInv(s) && LockInv(s) && ExclusiveInv(s)
    requires i in s.openers && s.openers[i].stage.Waiting? && s.openers[i].lock !in s.held
    requires Holding(stage) && s.openers[i].key !in s.table.ptys
    ensures var t := Goes(Holds(s, i), i, stage); TokenInv(t) && LockInv(t) && ExclusiveInv(t)
  {
    var t := Goes(Holds(s, i), i, stage);
    forall k | k in t.table.locks && t.table.locks[k] in t.held
      ensures k !in t.table.ptys
    {
      assert t.table.locks[k] == s.openers[i].lock ==> k == s.openers[i].key;
    }
  }

  lemma HoldsSessions(s: Sys, i: nat)
    requires SessionInv(s) && i in s.openers
    ensures SessionInv(Holds(s, i))
  {
    forall x | x in s.sessions
      ensures Accounted(Holds(s, i), x)
    {
      assert Accounted(s, x);
    }
  }

  lemma StopInv(s: Sys, x: nat)
    requires Inv(s)
    ensures Inv(Stop(s, x))
  {
    var t := Stop(s, x);
    forall y | y in t.sessions
      ensures Accounted(t, y)
    {
      assert Accounted(s, y);
    }
  }

  lemma FailsInv(s: Sys, i: nat)
    requires Inv(s) && i in s.openers && s.openers[i].stage.Starting?
    ensures Inv(Fails(s, i))
  {
    var x := s.openers[i].stage.session;
    StopInv(s, x);
    assert Ready(Stop(s, x), i, Stopping(x));
    GoesInv(Stop(s, x), i, Stopping(x));
  }

  // A registered session goes, told to stop or known to be dead.
  lemma UnregisterInv(s: Sys, key: Key)
    requires Inv(s)
    requires key in s.table.ptys ==>
               var y := s.sessions[s.table.ptys[key]]; y.stopping || !y.alive
    ensures Inv(s.(table := Unregister(s.table, key)))
  {
    UnregisterFewer(s.table, key);
    FewerEntriesInv(s, Unregister(s.table, key));
  }

  lemma UnregisterFewer(t: Table, key: Key)
    requires Shape(t)
    ensures Fewer(t, Unregister(t, key))
    ensures forall k :: k in t.ptys && k !in Unregister(t, key).ptys ==> k == key
  {
  }

  lemma EnterInv(s: Sys, i: nat, adopt: bool)
    requires Inv(s) && Enabled(s, Enter(i, adopt))
    ensures Inv(Step(s, Enter(i, adopt)))
  {
    var o := s.openers[i];
    if !IsCurrent(s, o) {
      LeavesInv(s, i);
    } else if o.key !in s.table.ptys {
      HoldsInv(s, i, Probing);
    } else {
      var x := s.table.ptys[o.key];
      if s.sessions[x].alive {
        AdoptInv(s, o.key, o.generation.launchId);
        LeavesInv(s.(table := s.table.(launchIds := s.table.launchIds[o.key := o.generation.launchId])), i);
        LeavesInv(s, i);
      } else {
        UnregisterInv(s, o.key);
        StopInv(s.(table := Unregister(s.table, o.key)), x);
        HoldsInv(Stop(s.(table := Unregister(s.table, o.key)), x), i, Draining);
      }
    }
  }

  lemma AdoptInv(s: Sys, key: Key, launchId: Option<string>)
    requires Inv(s) && key in s.table.ptys
    ensures Inv(s.(table := s.table.(launchIds := s.table.launchIds[key := launchId])))
  {
    AdoptFewer(s.table, key, launchId);
    FewerEntriesInv(s, s.table.(launchIds := s.table.launchIds[key := launchId]));
  }

  lemma AdoptFewer(t: Table, key: Key, launchId: Option<string>)
    requires Shape(t) && key in t.ptys
    ensures Fewer(t, t.(launchIds := t.launchIds[key := launchId]))
  {
  }

  lemma ProbedInv(s: Sys, i: nat, available: bool)
    requires Inv(s) && Enabled(s, Probed(i, available))
    ensures Inv(Step(s, Probed(i, available)))
  {
    var o := s.openers[i];
    if !IsCurrent(s, o) || !available {
      LeavesInv(s, i);
    } else {
      NewSessionInv(s, i);
    }
  }

  lemma NewSessionInv(s: Sys, i: nat)
    requires Inv(s) && i in s.openers && s.openers[i].stage.Probing?
    ensures Inv(Goes(Creates(s, Session(s.openers[i].key, i, false, false)), i, Starting(s.nextToken)))
  {
    var y := Session(s.openers[i].key, i, false, false);
    CreatesInv(s, y);
    CreatedReady(s, i, y);
    GoesInv(Creates(s, y), i, Starting(s.nextToken));
  }

  lemma CreatedReady(s: Sys, i: nat, y: Session)
    requires i in s.openers && s.openers[i].stage.Probing? && y.opener == i && y.key == s.openers[i].key
    ensures Ready(Creates(s, y), i, Starting(s.nextToken))
  {
  }

  lemma CreatesInv(s: Sys, y: Session)
    requires Inv(s) && y.opener in s.openers && !y.alive
    ensures Inv(Creates(s, y))
  {
    var x := s.nextToken;
    var u := Creates(s, y);
    forall z | z in u.sessions
      ensures Accounted(u, z)
    {
      if z != x {
        assert Accounted(s, z);
      }
    }
  }

  lemma ChildStartsInv(s: Sys, x: nat)
    requires Inv(s) && Enabled(s, ChildStarts(x))
    ensures Inv(Step(s, ChildStarts(x)))
  {
    var t := Step(s, ChildStarts(x));
    forall y | y in t.sessions
      ensures Accounted(t, y)
    {
      assert Accounted(s, y);
    }
  }

  // The opener registers its child and leaves, with nothing in between.
  lemma StartReturnsInv(s: Sys, i: nat)
    requires Inv(s) && Enabled(s, StartReturns(i))
    ensures Inv(Step(s, StartReturns(i)))
  {
    var o := s.openers[i];
    var x := o.stage.session;
    FailsInv(s, i);
    if IsCurrent(s, o) && s.sessions[x].alive {
      RegistersInv(s, i);
    }
  }

  lemma RegistersInv(s: Sys, i: nat)
    requires Inv(s) && i in s.openers && s.openers[i].stage.Starting? && IsCurrent(s, s.openers[i])
    ensures var o := s.openers[i];
            Inv(Leaves(s.(table := Register(s.table, o.key, o.stage.session, o.generation.launchId)), i))
  {
    var o := s.openers[i];
    var r := Register(s.table, o.key, o.stage.session, o.generation.launchId);
    var u := s.(table := r);
    LeavesUsers(u, i);
    LeaveShrinks(r, o.key, o.lock);
    RegisteredSessions(s, i, LeaveOpen(r, o.key, o.lock));
    RegisteredLocks(s, i, LeaveOpen(r, o.key, o.lock));
  }

  lemma RegisteredSessions(s: Sys, i: nat, t: Table)
    requires SessionInv(s) && i in s.openers && s.openers[i].stage.Starting?
    requires s.openers[i].key !in s.table.ptys
    requires t.ptys == s.table.ptys[s.openers[i].key := s.openers[i].stage.session]
    ensures SessionInv(s.(openers := s.openers - {i}, held := s.held - {s.openers[i].lock}, table := t))
  {
    var u := s.(openers := s.openers - {i}, held := s.held - {s.openers[i].lock}, table := t);
    forall y | y in u.sessions
      ensures Accounted(u, y)
    {
      assert Accounted(s, y);
    }
  }

  lemma RegisteredLocks(s: Sys, i: nat, t: Table)
    requires LockInv(s) && ExclusiveInv(s) && TokenInv(s) && i in s.openers && s.openers[i].stage.Starting?
    requires s.openers[i].key in s.table.locks && s.table.locks[s.openers[i].key] == s.openers[i].lock
    requires t.ptys == s.table.ptys[s.openers[i].key := s.openers[i].stage.session]
    requires forall k :: k in t.locks ==> k in s.table.locks && t.locks[k] == s.table.locks[k]
    requires forall k :: k in t.requests ==> k in s.table.requests && t.requests[k] == s.table.requests[k]
    ensures var u := s.(openers := s.openers - {i}, held := s.held - {s.openers[i].lock}, table := t);
            LockInv(u) && ExclusiveInv(u) && TokenInv(u)
  {
  }

  lemma ChildExitsInv(s: Sys, x: nat)
    requires Inv(s) && Enabled(s, ChildExits(x))
    ensures Inv(Step(s, ChildExits(x)))
  {
    var t := Step(s, ChildExits(x));
    forall y | y in t.sessions
      ensures Accounted(t, y)
    {
      assert Accounted(s, y);
    }
  }

  // ---- Closing --------------------------------------------------------------------------------

  lemma StopAllInv(s: Sys, doomed: set<nat>)
    requires Inv(s)
    ensures Inv(StopAll(s, doomed))
  {
    var t := StopAll(s, doomed);
    assert forall x :: x in t.sessions <==> x in s.sessions;
    forall y | y in t.sessions
      ensures Accounted(t, y)
    {
      assert Accounted(s, y);
    }
  }

  // Entries go from the table, whole keys at a time.
  ghost predicate Fewer(t: Table, u: Table) {
    && Shape(u)
    && (forall k :: k in u.locks ==>
          k in t.locks && u.locks[k] == t.locks[k] && Count(u.users, k) == Count(t.users, k))
    && (forall k :: k in u.requests ==> k in t.requests && u.requests[k] == t.requests[k])
    && (forall k :: k in u.ptys ==> k in t.ptys && u.ptys[k] == t.ptys[k])
  }

  // ... and the sessions that went were stopped or are dead.
  lemma FewerEntriesInv(s: Sys, t: Table)
    requires Inv(s) && Fewer(s.table, t)
    requires forall k :: k in s.table.ptys && k !in t.ptys ==>
               s.sessions[s.table.ptys[k]].stopping || !s.sessions[s.table.ptys[k]].alive
    ensures Inv(s.(table := t))
  {
    var u := s.(table := t);
    forall x | x in u.sessions
      ensures Accounted(u, x)
    {
      assert Accounted(s, x);
    }
  }

  // The sessions of entries that go are told to stop.
  lemma StopFewerInv(s: Sys, doomed: set<nat>, t: Table)
    requires Inv(s) && Fewer(s.table, t)
    requires forall k :: k in s.table.ptys && k !in t.ptys ==> s.table.ptys[k] in doomed
    ensures Inv(StopAll(s, doomed).(table := t))
  {
    StopAllInv(s, doomed);
    DoomedStop(s, doomed, t);
    FewerEntriesInv(StopAll(s, doomed), t);
  }

  lemma DoomedStop(s: Sys, doomed: set<nat>, t: Table)
    requires SessionInv(s)
    requires forall k :: k in s.table.ptys && k !in t.ptys ==> s.table.ptys[k] in doomed
    ensures forall k :: k in s.table.ptys && k !in t.ptys ==> StopAll(s, doomed).sessions[s.table.ptys[k]].stopping
  {
  }

  lemma CloseInv(s: Sys, key: Key, launchId: Option<string>)
    requires Inv(s)
    ensures Inv(Step(s, CloseFrame(key, launchId)))
  {
    if Addresses(s.table, key, launchId) {
      CloseFewer(s.table, key);
      StopFewerInv(s, if key in s.table.ptys then {s.table.ptys[key]} else {}, Close(s.table, key));
    }
  }

  lemma CloseFewer(t: Table, key: Key)
    requires Shape(t)
    ensures Fewer(t, Close(t, key))
    ensures forall k :: k in t.ptys && k !in Close(t, key).ptys ==> k == key
  {
  }

  lemma RetireInv(s: Sys, removed: set<string>)
    requires Inv(s)
    ensures Inv(Step(s, RetireAgents(removed)))
  {
    RetireFewer(s.table, removed);
    RetireDooms(s.table, removed);
    StopFewerInv(s, Doomed(s.table, removed), Retire(s.table, removed));
  }

  lemma RetireDooms(t: Table, removed: set<string>)
    ensures forall k :: k in t.ptys && k !in Retire(t, removed).ptys ==> t.ptys[k] in Doomed(t, removed)
  {
    forall k | k in t.ptys && k !in Retire(t, removed).ptys
      ensures t.ptys[k] in Doomed(t, removed)
    {
      assert k.agentId in removed;
    }
  }

  lemma RetireFewer(t: Table, removed: set<string>)
    requires Shape(t)
    ensures Fewer(t, Retire(t, removed))
  {
  }

  lemma ShutdownInv(s: Sys)
    requires Inv(s)
    ensures Inv(Step(s, ShutdownAll))
  {
    ShutdownFewer(s.table);
    StopFewerInv(s, if s.table.stopped then {} else s.table.ptys.Values, Shutdown(s.table));
  }

  lemma ShutdownFewer(t: Table)
    requires Shape(t)
    ensures Fewer(t, Shutdown(t))
  {
  }

  lemma ReplaceFewer(t: Table, agents: set<string>)
    requires Shape(t)
    ensures Fewer(t, t.(agents := agents))
  {
  }

  lemma ReplaceAgentsInv(s: Sys, agents: set<string>)
    requires Inv(s)
    ensures Inv(Step(s, ReplaceAgents(agents)))
  {
    ReplaceFewer(s.table, agents);
    FewerEntriesInv(s, s.table.(agents := agents));
  }

  // ---- Every run ----------------------------------------------------------------------------------

  lemma StepInv(s: Sys, a: Action)
    requires Inv(s) && Enabled(s, a)
    ensures Inv(Step(s, a))
  {
    match a
    case Open(key, g) => OpenInv(s, key, g);
    case Enter(i, adopt) => EnterInv(s, i, adopt);
    case Drained(i) => if IsCurrent(s, s.openers[i]) { GoesInv(s, i, Probing); } else { LeavesInv(s, i); }
    case Probed(i, available) => ProbedInv(s, i, available);
    case ChildStarts(x) => ChildStartsInv(s, x);
    case StartReturns(i) => StartReturnsInv(s, i);
    case StartRaises(i) => FailsInv(s, i);
    case ChildClosed(i) => LeavesInv(s, i);
    case Cancel(i) => if s.openers[i].stage.Starting? { FailsInv(s, i); } else { LeavesInv(s, i); }
    case ChildExits(x) => ChildExitsInv(s, x);
    case ExitReported(x) =>
      if s.sessions[x].key in s.table.ptys && s.table.ptys[s.sessions[x].key] == x {
        UnregisterInv(s, s.sessions[x].key);
      }
    case CloseFrame(key, launchId) => CloseInv(s, key, launchId);
    case ReplaceAgents(agents) => ReplaceAgentsInv(s, agents);
    case RetireAgents(removed) => RetireInv(s, removed);
    case ShutdownAll => ShutdownInv(s);
  }

  lemma {:induction false} RunInv(s: Sys, actions: seq<Action>)
    requires Inv(s)
    ensures Inv(Run(s, actions))
    decreases |actions|
  {
    if actions != [] {
      if Enabled(s, actions[0]) {
        StepInv(s, actions[0]);
      }
      RunInv(if Enabled(s, actions[0]) then Step(s, actions[0]) else s, actions[1..]);
    }
  }

  lemma ReachableInv(actions: seq<Action>)
    ensures Inv(Run(INIT, actions))
  {
    RunInv(INIT, actions);
  }

  // ---- Main results -----------------------------------------------------------------------------------

  // When an opener registers its child, its key has no session: nothing live is ever
  // overwritten. Afterwards the key has this one, and the opener has left.
  lemma RegistrationNeverOverwrites(actions: seq<Action>, i: nat)
    requires Enabled(Run(INIT, actions), StartReturns(i))
    ensures var s := Run(INIT, actions); var t := Step(s, StartReturns(i)); var o := s.openers[i];
            if t.table.ptys == s.table.ptys
            then i in t.openers && o.stage.session in t.sessions && t.sessions[o.stage.session].stopping
            else IsCurrent(s, o) && o.key !in s.table.ptys && i !in t.openers
                 && t.table.ptys == s.table.ptys[o.key := o.stage.session]
  {
    ReachableInv(actions);
    var s := Run(INIT, actions);
    var o := s.openers[i];
    if IsCurrent(s, o) {
      assert s.table.locks[o.key] in s.held;
      assert o.key in Register(s.table, o.key, o.stage.session, o.generation.launchId).ptys;
      LeaveShrinks(Register(s.table, o.key, o.stage.session, o.generation.launchId), o.key, o.lock);
    }
  }

  // Every session that lives and was not told to stop is registered under its key, or
  // an opener that holds its key's lock is still starting it; and a present opener
  // past its check excludes a registered session.
  lemma EverySessionAccounted(actions: seq<Action>, x: nat)
    requires x in Run(INIT, actions).sessions
    ensures var s := Run(INIT, actions); var y := s.sessions[x];
            y.alive && !y.stopping ==>
              || (y.key in s.table.ptys && s.table.ptys[y.key] == x)
              || (y.opener in s.openers && s.openers[y.opener].stage == Starting(x)
                  && s.openers[y.opener].lock in s.held && s.held[s.openers[y.opener].lock] == y.opener
                  && (IsCurrent(s, s.openers[y.opener]) ==> y.key !in s.table.ptys))
  {
    ReachableInv(actions);
    var s := Run(INIT, actions);
    assert Accounted(s, x);
  }

  // The user count of a key is the number of openers in flight under its lock.
  lemma UsersAreOpenersInFlight(actions: seq<Action>, key: Key)
    ensures var s := Run(INIT, actions);
            && (key in s.table.users <==> key in s.table.locks)
            && (key in s.table.locks ==>
                  s.table.users[key] == |Under(s.openers, s.table.locks[key])| >= 1)
  {
    ReachableInv(actions);
  }

  // ---- Superseded requests -----------------------------------------------------------------------------

  // The request of an open was replaced, or its lock was dropped, or all is stopped.
  ghost predicate Superseded(t: Table, o: Opener) {
    || t.stopped
    || !(o.key in t.locks && t.locks[o.key] == o.lock)
    || !(o.key in t.requests && t.requests[o.key] == o.request)
  }

  // Opener i, superseded, still in flight or gone, has nothing registered.
  ghost predicate Shut(s: Sys, i: nat, o: Opener) {
    && i < s.nextToken && o.lock.token < s.nextToken && o.request < s.nextToken && o.lock.key == o.key
    && Superseded(s.table, o)
    && (i in s.openers ==> s.openers[i].key == o.key && s.openers[i].lock == o.lock && s.openers[i].request == o.request)
    && forall key :: key in s.table.ptys && s.table.ptys[key] in s.sessions ==>
         s.sessions[s.table.ptys[key]].opener != i
  }

  // Tokens in the open maps are kept, dropped or new.
  ghost predicate Renews(s: Sys, t: Sys) {
    && s.nextToken <= t.nextToken
    && (s.table.stopped ==> t.table.stopped)
    && (forall k :: k in t.table.locks ==>
          (k in s.table.locks && t.table.locks[k] == s.table.locks[k]) || t.table.locks[k].token >= s.nextToken)
    && (forall k :: k in t.table.requests ==>
          (k in s.table.requests && t.table.requests[k] == s.table.requests[k]) || t.table.requests[k] >= s.nextToken)
  }

  lemma SupersededStays(s: Sys, t: Sys, o: Opener)
    requires Superseded(s.table, o) && Renews(s, t)
    requires o.lock.token < s.nextToken && o.request < s.nextToken
    ensures Superseded(t.table, o)
  {
  }

  lemma LeavesRenews(s: Sys, u: Sys, i: nat)
    requires Shape(u.table) && i in u.openers
    requires u.table.locks == s.table.locks && u.table.requests == s.table.requests
    requires u.table.stopped == s.table.stopped && u.nextToken == s.nextToken
    ensures Renews(s, Leaves(u, i))
    ensures Leaves(u, i).table.ptys == u.table.ptys
  {
    LeaveShrinks(u.table, u.openers[i].key, u.openers[i].lock);
  }

  lemma StepRenews(s: Sys, a: Action)
    requires Shape(s.table) && Enabled(s, a) && TokenInv(s)
    ensures Renews(s, Step(s, a))
  {
    match a
    case Open(key, g) => OpenRenews(s, key, g);
    case Enter(i, adopt) => EnterRenews(s, i, adopt);
    case StartReturns(i) => StartReturnsRenews(s, i);
    case Drained(i) => LeavesRenews(s, s, i);
    case Probed(i, _) => LeavesRenews(s, s, i);
    case ChildClosed(i) => LeavesRenews(s, s, i);
    case Cancel(i) => LeavesRenews(s, s, i);
    case _ =>
  }

  lemma EnterRenews(s: Sys, i: nat, adopt: bool)
    requires Shape(s.table) && Enabled(s, Enter(i, adopt))
    ensures Renews(s, Step(s, Enter(i, adopt)))
    ensures var t := Step(s, Enter(i, adopt));
            forall key :: key in t.table.ptys ==> key in s.table.ptys && s.table.ptys[key] == t.table.ptys[key]
  {
    var o := s.openers[i];
    LeavesRenews(s, s, i);
    if o.key in s.table.ptys {
      AdoptRenews(s, i, s.table.launchIds[o.key := o.generation.launchId]);
    }
  }

  lemma AdoptRenews(s: Sys, i: nat, launchIds: map<Key, Option<string>>)
    requires Shape(s.table) && i in s.openers && launchIds.Keys == s.table.launchIds.Keys
    ensures var u := s.(table := s.table.(launchIds := launchIds));
            Renews(s, Leaves(u, i)) && Leaves(u, i).table.ptys == s.table.ptys
  {
    LeavesRenews(s, s.(table := s.table.(launchIds := launchIds)), i);
  }

  lemma StartReturnsRenews(s: Sys, i: nat)
    requires Shape(s.table) && Enabled(s, StartReturns(i))
    ensures Renews(s, Step(s, StartReturns(i)))
    ensures var t := Step(s, StartReturns(i)); var o := s.openers[i];
            || t.table.ptys == s.table.ptys
            || (IsCurrent(s, o) && o.stage.session in s.sessions
                && t.table.ptys == s.table.ptys[o.key := o.stage.session])
  {
    var o := s.openers[i];
    var r := Register(s.table, o.key, o.stage.session, o.generation.launchId);
    LeavesRenews(s, s.(table := r), i);
  }

  lemma OpenRenews(s: Sys, key: Key, g: Generation)
    requires Shape(s.table)
    ensures Renews(s, Step(s, Open(key, g)))
    ensures Step(s, Open(key, g)).table.ptys == s.table.ptys
  {
    if Accepts(s.table, key, g.launchId) {
      OpenEnters(s, key, g);
      BeginCounts(s.table, key, g, Lock(key, s.nextToken), s.nextToken + 1);
      BeginRequests(s.table, key, g, Lock(key, s.nextToken), s.nextToken + 1);
      BeginSessions(s.table, key, g, Lock(key, s.nextToken), s.nextToken + 1);
    }
  }

  // A registered session was registered before, or its opener is just registering it
  // and is current.
  lemma StepRegisters(s: Sys, a: Action, key: Key)
    requires Shape(s.table) && TokenInv(s) && Enabled(s, a)
    ensures var t := Step(s, a);
            key in t.table.ptys ==>
              var x := t.table.ptys[key];
              || (key in s.table.ptys && s.table.ptys[key] == x)
              || (a.StartReturns? && IsCurrent(s, s.openers[a.i]) && s.openers[a.i].stage.session == x && x in s.sessions)
  {
    match a
    case Open(k, g) => OpenRenews(s, k, g);
    case Enter(i, adopt) => EnterRenews(s, i, adopt);
    case StartReturns(i) => StartReturnsRenews(s, i);
    case Drained(i) => LeavesRenews(s, s, i);
    case Probed(i, _) => LeavesRenews(s, s, i);
    case ChildClosed(i) => LeavesRenews(s, s, i);
    case Cancel(i) => LeavesRenews(s, s, i);
    case _ =>
  }

  // A session keeps its opener.
  lemma StepSessions(s: Sys, a: Action, x: nat)
    requires TokenInv(s) && Enabled(s, a) && x in s.sessions
    ensures x in Step(s, a).sessions && Step(s, a).sessions[x].opener == s.sessions[x].opener
  {
  }

  // An opener keeps its key, lock and request, and its number is not given out again.
  lemma StepOpeners(s: Sys, a: Action, i: nat)
    requires Enabled(s, a) && i < s.nextToken
    ensures var t := Step(s, a);
            i in t.openers ==>
              && i in s.openers
              && t.openers[i].key == s.openers[i].key
              && t.openers[i].lock == s.openers[i].lock
              && t.openers[i].request == s.openers[i].request
  {
  }

  lemma ShutStep(s: Sys, a: Action, i: nat, o: Opener)
    requires Inv(s) && Enabled(s, a) && Shut(s, i, o)
    ensures Shut(Step(s, a), i, o)
  {
    var t := Step(s, a);
    StepRenews(s, a);
    SupersededStays(s, t, o);
    StepOpeners(s, a, i);
    forall key | key in t.table.ptys && t.table.ptys[key] in t.sessions
      ensures t.sessions[t.table.ptys[key]].opener != i
    {
      StepRegisters(s, a, key);
      assert t.table.ptys[key] in s.sessions;
      StepSessions(s, a, t.table.ptys[key]);
    }
  }

  lemma {:induction false} ShutRun(s: Sys, actions: seq<Action>, i: nat, o: Opener)
    requires Inv(s) && Shut(s, i, o)
    ensures Shut(Run(s, actions), i, o)
    decreases |actions|
  {
    if actions != [] {
      var next := if Enabled(s, actions[0]) then Step(s, actions[0]) else s;
      if Enabled(s, actions[0]) {
        StepInv(s, actions[0]);
        ShutStep(s, actions[0], i, o);
      }
      ShutRun(next, actions[1..], i, o);
    }
  }

  // Once the request of an opener is superseded it never registers anything, whatever
  // happens afterwards; and when it has left, every child it started is dead or was
  // told to stop.
  lemma SupersededNeverRegisters(before: seq<Action>, after: seq<Action>, i: nat)
    requires var s := Run(INIT, before); i in s.openers && Superseded(s.table, s.openers[i])
    ensures var t := Run(Run(INIT, before), after);
            && (forall key :: key in t.table.ptys && t.table.ptys[key] in t.sessions ==>
                  t.sessions[t.table.ptys[key]].opener != i)
            && (i !in t.openers ==>
                  forall x :: x in t.sessions && t.sessions[x].opener == i ==>
                    t.sessions[x].stopping || !t.sessions[x].alive)
  {
    ReachableInv(before);
    var s := Run(INIT, before);
    var o := s.openers[i];
    forall key | key in s.table.ptys && s.table.ptys[key] in s.sessions
      ensures s.sessions[s.table.ptys[key]].opener != i
    {}
    ShutRun(s, after, i, o);
    RunInv(s, after);
    var t := Run(s, after);
    if i !in t.openers {
      forall x | x in t.sessions && t.sessions[x].opener == i
        ensures t.sessions[x].stopping || !t.sessions[x].alive
      {
        assert Accounted(t, x);
      }
    }
  }

  // Shutting down, closing its key, retiring its agent, or a request for another
  // generation of its key.
  predicate Supersedes(s: Sys, a: Action, o: Opener) {
    match a
    case ShutdownAll => true
    case CloseFrame(key, launchId) => key == o.key && Addresses(s.table, key, launchId)
    case RetireAgents(removed) => o.key.agentId in removed
    case Open(key, g) => key == o.key && Accepts(s.table, key, g.launchId) && !SameGeneration(s.table, key, g)
    case _ => false
  }

  // An opener that leaves takes its key's entry along only if nobody else is in flight.
  lemma OthersLeave(s: Sys, t: Table, i: nat, j: nat)
    requires TokenInv(s) && UserInv(s) && Shape(s.table) && i in s.openers && j in s.openers && i != j
    requires t.locks == s.table.locks && t.users == s.table.users && t.requests == s.table.requests
    requires t.stopped == s.table.stopped
    requires !Superseded(s.table, s.openers[i])
    ensures !Superseded(LeaveOpen(t, s.openers[j].key, s.openers[j].lock), s.openers[i])
  {
    var lock := s.openers[i].lock;
    if s.openers[j].lock == lock {
      var under := Under(s.openers, lock);
      assert {i, j} <= under && |{i, j}| == 2;
      Smaller({i, j}, under);
      assert Count(s.table.users, lock.key) == |under|;
    }
  }

  lemma Smaller(a: set<nat>, b: set<nat>)
    requires a <= b
    ensures |a| <= |b|
  {
    assert b == a + (b - a);
  }

  lemma OpenSupersedes(s: Sys, i: nat, key: Key, g: Generation)
    requires Inv(s) && i in s.openers && !Superseded(s.table, s.openers[i])
    ensures Superseded(Step(s, Open(key, g)).table, s.openers[i]) <==> Supersedes(s, Open(key, g), s.openers[i])
  {
    if Accepts(s.table, key, g.launchId) {
      OpenEnters(s, key, g);
    }
  }

  lemma EnterSupersedes(s: Sys, i: nat, j: nat, adopt: bool)
    requires Inv(s) && i in s.openers && !Superseded(s.table, s.openers[i]) && Enabled(s, Enter(j, adopt)) && i != j
    ensures !Superseded(Step(s, Enter(j, adopt)).table, s.openers[i])
  {
    var o := s.openers[j];
    OthersLeave(s, s.table, i, j);
    if o.key in s.table.ptys {
      OthersLeave(s, s.table.(launchIds := s.table.launchIds[o.key := o.generation.launchId]), i, j);
    }
  }

  lemma ReturnSupersedes(s: Sys, i: nat, j: nat)
    requires Inv(s) && i in s.openers && !Superseded(s.table, s.openers[i]) && Enabled(s, StartReturns(j)) && i != j
    ensures !Superseded(Step(s, StartReturns(j)).table, s.openers[i])
  {
    var o := s.openers[j];
    OthersLeave(s, Register(s.table, o.key, o.stage.session, o.generation.launchId), i, j);
  }

  // Whatever step of whoever comes next: an opener that stays in flight is superseded by
  // exactly these four.
  lemma WhatSupersedes(actions: seq<Action>, i: nat, a: Action)
    requires var s := Run(INIT, actions);
             i in s.openers && !Superseded(s.table, s.openers[i]) && Enabled(s, a) && i in Step(s, a).openers
    ensures var s := Run(INIT, actions);
            Superseded(Step(s, a).table, s.openers[i]) <==> Supersedes(s, a, s.openers[i])
  {
    ReachableInv(actions);
    StepSupersedes(Run(INIT, actions), i, a);
  }

  // Its own steps keep the entry while it stays; those of others may only take it along.
  lemma OwnStep(s: Sys, i: nat, a: Action)
    requires i in s.openers && Enabled(s, a) && i in Step(s, a).openers
    requires !Superseded(s.table, s.openers[i])
    requires match a
             case Enter(j, _) => j == i
             case Drained(j) => j == i
             case Probed(j, _) => j == i
             case StartReturns(j) => j == i
             case Cancel(j) => j == i
             case _ => false
    ensures !Superseded(Step(s, a).table, s.openers[i])
  {
  }

  lemma LeavingStep(s: Sys, i: nat, j: nat, a: Action)
    requires Inv(s) && i in s.openers && !Superseded(s.table, s.openers[i]) && Enabled(s, a) && i != j
    requires match a
             case Drained(k) => k == j
             case Probed(k, _) => k == j
             case ChildClosed(k) => k == j
             case Cancel(k) => k == j
             case _ => false
    ensures !Superseded(Step(s, a).table, s.openers[i])
  {
    OthersLeave(s, s.table, i, j);
  }

  // The entry of an opener's key is its own, so it goes with the key.
  lemma ClosingStep(s: Sys, i: nat, a: Action)
    requires i in s.openers && !Superseded(s.table, s.openers[i]) && Enabled(s, a)
    requires a.CloseFrame? || a.RetireAgents? || a.ShutdownAll? || a.ReplaceAgents? || a.ExitReported?
    ensures Superseded(Step(s, a).table, s.openers[i]) <==> Supersedes(s, a, s.openers[i])
  {
  }

  lemma StepSupersedes(s: Sys, i: nat, a: Action)
    requires Inv(s) && i in s.openers && !Superseded(s.table, s.openers[i])
    requires Enabled(s, a) && i in Step(s, a).openers
    ensures Superseded(Step(s, a).table, s.openers[i]) <==> Supersedes(s, a, s.openers[i])
  {
    match a
    case Open(key, g) => OpenSupersedes(s, i, key, g);
    case Enter(j, adopt) => if i == j { OwnStep(s, i, a); } else { EnterSupersedes(s, i, j, adopt); }
    case StartReturns(j) => if i == j { OwnStep(s, i, a); } else { ReturnSupersedes(s, i, j); }
    case Drained(j) => if i == j { OwnStep(s, i, a); } else { LeavingStep(s, i, j, a); }
    case Probed(j, _) => if i == j { OwnStep(s, i, a); } else { LeavingStep(s, i, j, a); }
    case Cancel(j) => if i == j { OwnStep(s, i, a); } else { LeavingStep(s, i, j, a); }
    case ChildClosed(j) => if i != j { LeavingStep(s, i, j, a); }
    case StartRaises(_) =>
    case ChildStarts(_) =>
    case ChildExits(_) =>
    case _ => ClosingStep(s, i, a);
  }
}
