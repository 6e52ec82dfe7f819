// What each step of opening and closing comes to: who is admitted, who registers what,
// who is told to stop.
module OpensEffects {
  import opened Common
  import opened Opens
  import opened OpensSafety

  // ---- Two more invariants ------------------------------------------------------------------

  // A child that is being started was not told to stop.
  ghost predicate Unstopped(s: Sys) {
    forall i :: i in s.openers && s.openers[i].stage.Starting? && s.openers[i].stage.session in s.sessions ==>
      !s.sessions[s.openers[i].stage.session].stopping
  }

  // An opener whose request is the pending one asked for the pending generation.
  ghost predicate Agrees(t: Table, o: Opener) {
    o.key in t.requests && t.requests[o.key] == o.request && o.key in t.generations ==>
      t.generations[o.key] == o.generation
  }

  ghost predicate AllAgree(s: Sys) {
    forall i :: i in s.openers ==> Agrees(s.table, s.openers[i])
  }

  // A pending request that is not new stands for the generation it stood for.
  ghost predicate KeepsGenerations(t: Table, u: Table, next: nat) {
    forall k :: k in u.requests && k in u.generations ==>
      || u.requests[k] >= next
      || (k in t.requests && k in t.generations && u.requests[k] == t.requests[k] && u.generations[k] == t.generations[k])
  }

  lemma LeaveKeeps(t: Table, key: Key, lock: Lock, next: nat)
    ensures KeepsGenerations(t, LeaveOpen(t, key, lock), next)
  {
  }

  lemma BeginKeeps(t: Table, key: Key, g: Generation, lock: Lock, request: nat, next: nat)
    requires request >= next && Shape(t)
    ensures KeepsGenerations(t, BeginOpen(t, key, g, lock, request), next)
    ensures key in BeginOpen(t, key, g, lock, request).generations
    ensures BeginOpen(t, key, g, lock, request).generations[key] == g
  {
  }

  lemma StepKeeps(s: Sys, a: Action)
    requires Shape(s.table) && Enabled(s, a)
    ensures KeepsGenerations(s.table, Step(s, a).table, s.nextToken)
  {
    match a
    case Open(key, g) => OpenKeeps(s, key, g);
    case Enter(i, adopt) => EnterKeeps(s, i, adopt);
    case StartReturns(i) => ReturnKeeps(s, i);
    case Drained(i) => LeaveKeeps(s.table, s.openers[i].key, s.openers[i].lock, s.nextToken);
    case Probed(i, _) => LeaveKeeps(s.table, s.openers[i].key, s.openers[i].lock, s.nextToken);
    case ChildClosed(i) => LeaveKeeps(s.table, s.openers[i].key, s.openers[i].lock, s.nextToken);
    case Cancel(i) => LeaveKeeps(s.table, s.openers[i].key, s.openers[i].lock, s.nextToken);
    case _ => ClosingKeeps(s, a);
  }

  lemma OpenKeeps(s: Sys, key: Key, g: Generation)
    requires Shape(s.table)
    ensures KeepsGenerations(s.table, Step(s, Open(key, g)).table, s.nextToken)
  {
    BeginKeeps(s.table, key, g, Lock(key, s.nextToken), s.nextToken + 1, s.nextToken);
  }

  lemma EnterKeeps(s: Sys, i: nat, adopt: bool)
    requires Enabled(s, Enter(i, adopt))
    ensures KeepsGenerations(s.table, Step(s, Enter(i, adopt)).table, s.nextToken)
  {
    var o := s.openers[i];
    LeaveKeeps(s.table, o.key, o.lock, s.nextToken);
    if o.key in s.table.ptys {
      LeaveKeeps(s.table.(launchIds := s.table.launchIds[o.key := o.generation.launchId]), o.key, o.lock, s.nextToken);
    }
  }

  lemma ReturnKeeps(s: Sys, i: nat)
    requires Enabled(s, StartReturns(i))
    ensures KeepsGenerations(s.table, Step(s, StartReturns(i)).table, s.nextToken)
  {
    var o := s.openers[i];
    LeaveKeeps(Register(s.table, o.key, o.stage.session, o.generation.launchId), o.key, o.lock, s.nextToken);
  }

  lemma ClosingKeeps(s: Sys, a: Action)
    requires Enabled(s, a)
    requires a.ChildStarts? || a.StartRaises? || a.ChildExits? || a.ExitReported? || a.CloseFrame? || a.ReplaceAgents?
             || a.RetireAgents? || a.ShutdownAll?
    ensures KeepsGenerations(s.table, Step(s, a).table, s.nextToken)
  {
  }

  // An opener keeps the generation it asked for.
  lemma StepAsks(s: Sys, a: Action, i: nat)
    requires Enabled(s, a) && i < s.nextToken && i in Step(s, a).openers
    ensures i in s.openers && Step(s, a).openers[i] == s.openers[i].(stage := Step(s, a).openers[i].stage)
  {
  }

  lemma NewOpeners(s: Sys, a: Action, i: nat)
    requires Shape(s.table) && Enabled(s, a) && i !in s.openers && i in Step(s, a).openers
    ensures Agrees(Step(s, a).table, Step(s, a).openers[i])
  {
    OnlyOpenAdds(s, a, i);
    BeginKeeps(s.table, a.key, a.generation, Lock(a.key, s.nextToken), s.nextToken + 1, s.nextToken);
  }

  lemma OnlyOpenAdds(s: Sys, a: Action, i: nat)
    requires Enabled(s, a) && i !in s.openers && i in Step(s, a).openers
    ensures a.Open?
  {
  }

  lemma StepAgrees(s: Sys, a: Action)
    requires Inv(s) && AllAgree(s) && Enabled(s, a)
    ensures AllAgree(Step(s, a))
  {
    var t := Step(s, a);
    StepKeeps(s, a);
    forall i | i in t.openers
      ensures Agrees(t.table, t.openers[i])
    {
      if i in s.openers {
        StepAsks(s, a, i);
        assert Agrees(s.table, s.openers[i]);
      } else {
        NewOpeners(s, a, i);
      }
    }
  }

  // Telling registered sessions to stop spares those being started.
  lemma StopAllSpares(s: Sys, doomed: set<nat>, t: Table)
    requires SessionInv(s) && Unstopped(s)
    requires forall x :: x in doomed ==> x in s.table.ptys.Values
    ensures Unstopped(StopAll(s, doomed).(table := t))
  {
    forall key, i | key in s.table.ptys && i in s.openers && s.openers[i].stage.Starting?
      ensures s.openers[i].stage.session != s.table.ptys[key]
    {
      assert s.sessions[s.openers[i].stage.session].opener == i;
    }
  }

  lemma StepUnstopped(s: Sys, a: Action)
    requires Inv(s) && Unstopped(s) && Enabled(s, a)
    ensures Unstopped(Step(s, a))
  {
    match a
    case CloseFrame(key, launchId) =>
      StopAllSpares(s, if key in s.table.ptys then {s.table.ptys[key]} else {}, Close(s.table, key));
    case RetireAgents(removed) => StopAllSpares(s, Doomed(s.table, removed), Retire(s.table, removed));
    case ShutdownAll => StopAllSpares(s, if s.table.stopped then {} else s.table.ptys.Values, Shutdown(s.table));
    case Enter(i, adopt) => EnterUnstopped(s, i, adopt);
    case Probed(i, available) => ProbedUnstopped(s, i, available);
    case StartReturns(i) => FailsUnstopped(s, i);
    case StartRaises(i) => FailsUnstopped(s, i);
    case Cancel(i) => if s.openers[i].stage.Starting? { FailsUnstopped(s, i); }
    case _ =>
  }

  lemma EnterUnstopped(s: Sys, i: nat, adopt: bool)
    requires SessionInv(s) && Unstopped(s) && Enabled(s, Enter(i, adopt))
    ensures Unstopped(Step(s, Enter(i, adopt)))
  {
    var o := s.openers[i];
    if o.key in s.table.ptys {
      forall j | j in s.openers && s.openers[j].stage.Starting?
        ensures s.openers[j].stage.session != s.table.ptys[o.key]
      {
        assert s.sessions[s.openers[j].stage.session].opener == j;
      }
    }
  }

  lemma ProbedUnstopped(s: Sys, i: nat, available: bool)
    requires TokenInv(s) && SessionInv(s) && Unstopped(s) && Enabled(s, Probed(i, available))
    ensures Unstopped(Step(s, Probed(i, available)))
  {
  }

  lemma FailsUnstopped(s: Sys, i: nat)
    requires SessionInv(s) && Unstopped(s) && i in s.openers && s.openers[i].stage.Starting?
    ensures Unstopped(Fails(s, i))
  {
    var x := s.openers[i].stage.session;
    forall j | j in s.openers && s.openers[j].stage.Starting? && j != i
      ensures s.openers[j].stage.session != x
    {
      assert s.sessions[x].opener == i;
    }
  }

  lemma {:induction false} RunKeeps(s: Sys, actions: seq<Action>)
    requires Inv(s) && Unstopped(s) && AllAgree(s)
    ensures Inv(Run(s, actions)) && Unstopped(Run(s, actions)) && AllAgree(Run(s, actions))
    decreases |actions|
  {
    if actions != [] {
      if Enabled(s, actions[0]) {
        StepInv(s, actions[0]);
        StepUnstopped(s, actions[0]);
        StepAgrees(s, actions[0]);
      }
      RunKeeps(if Enabled(s, actions[0]) then Step(s, actions[0]) else s, actions[1..]);
    }
  }

  lemma Reachable(actions: seq<Action>)
    ensures Inv(Run(INIT, actions)) && Unstopped(Run(INIT, actions)) && AllAgree(Run(INIT, actions))
  {
    RunKeeps(INIT, actions);
  }

  // ---- Registration -----------------------------------------------------------------------------

  // When its start returns, an opener registers its child if and only if nothing is shut
  // down, its agent is in the directory, its lock and its request are the present ones,
  // and the child is alive. The child is then registered under the launch id of the
  // pending generation, was not told to stop, and the opener leaves. Otherwise nothing
  // is registered and the child is told to stop.
  lemma RegistersIffCurrent(actions: seq<Action>, i: nat)
    requires Enabled(Run(INIT, actions), StartReturns(i))
    ensures var s := Run(INIT, actions); var t := Step(s, StartReturns(i));
            var o := s.openers[i]; var x := o.stage.session;
            && x in s.sessions && x in t.sessions
            && (o.key in t.table.ptys && t.table.ptys[o.key] == x
                && o.key in t.table.launchIds && t.table.launchIds[o.key] == o.generation.launchId
                && !t.sessions[x].stopping
                <==> !s.table.stopped && o.key.agentId in s.table.agents
                     && o.key in s.table.locks && s.table.locks[o.key] == o.lock
                     && o.key in s.table.requests && s.table.requests[o.key] == o.request
                     && s.sessions[x].alive)
    ensures var s := Run(INIT, actions); var t := Step(s, StartReturns(i));
            var o := s.openers[i]; var x := o.stage.session;
            if x in t.sessions && !t.sessions[x].stopping
            then && i !in t.openers && t.sessions == s.sessions
                 && o.key in s.table.generations && s.table.generations[o.key] == o.generation
                 && t.table.ptys == s.table.ptys[o.key := x]
                 && t.table.launchIds == s.table.launchIds[o.key := o.generation.launchId]
            else && i in t.openers && t.openers[i] == o.(stage := Stopping(x)) && t.table == s.table
  {
    Reachable(actions);
    ReturnsRegisters(Run(INIT, actions), i);
  }

  lemma ReturnsRegisters(s: Sys, i: nat)
    requires Shape(s.table) && SessionInv(s) && Unstopped(s) && AllAgree(s) && Enabled(s, StartReturns(i))
    ensures var t := Step(s, StartReturns(i)); var o := s.openers[i]; var x := o.stage.session;
            && x in s.sessions && x in t.sessions
            && (IsCurrent(s, o) && s.sessions[x].alive ==>
                  && t.table.ptys == s.table.ptys[o.key := x]
                  && t.table.launchIds == s.table.launchIds[o.key := o.generation.launchId]
                  && i !in t.openers && t.sessions == s.sessions && !t.sessions[x].stopping
                  && o.key in s.table.generations && s.table.generations[o.key] == o.generation)
            && (!(IsCurrent(s, o) && s.sessions[x].alive) ==>
                  && t.table == s.table && t.sessions[x].stopping
                  && i in t.openers && t.openers[i] == o.(stage := Stopping(x)))
  {
    var o := s.openers[i];
    var r := Register(s.table, o.key, o.stage.session, o.generation.launchId);
    LeaveKeepsSessions(r, o.key, o.lock);
    assert Agrees(s.table, o);
  }

  lemma LeaveKeepsSessions(t: Table, key: Key, lock: Lock)
    ensures var u := LeaveOpen(t, key, lock);
            u.ptys == t.ptys && u.launchIds == t.launchIds && u.agents == t.agents && u.stopped == t.stopped
  {
  }

  lemma {:induction false} RunNext(s: Sys, actions: seq<Action>, a: Action)
    requires Enabled(Run(s, actions), a)
    ensures Run(s, actions + [a]) == Step(Run(s, actions), a)
    decreases |actions|
  {
    if actions == [] {
      assert [] + [a] == [a] && [a][1..] == [];
    } else {
      assert (actions + [a])[1..] == actions[1..] + [a];
      RunNext(if Enabled(s, actions[0]) then Step(s, actions[0]) else s, actions[1..], a);
    }
  }

  // The one opener of a key, at some stage, and what it has started.
  function Alone(key: Key, g: Generation, stage: Stage, sessions: map<nat, Session>, next: nat): Sys {
    var lock := Lock(key, 0);
    Sys(Table({key.agentId}, false, map[], map[], map[key := lock], map[key := 1], map[key := 1], map[key := g]),
        map[2 := Opener(key, lock, 1, g, stage)], if Holding(stage) then map[lock := 2] else map[], sessions, next)
  }

  lemma AloneOpens(key: Key, g: Generation)
    ensures Step(Step(INIT, ReplaceAgents({key.agentId})), Open(key, g)) == Alone(key, g, Waiting, map[], 3)
  {
  }

  lemma AloneProbes(key: Key, g: Generation)
    ensures var a := Alone(key, g, Waiting, map[], 3);
            Enabled(a, Enter(2, true)) && Step(a, Enter(2, true)) == Alone(key, g, Probing, map[], 3)
  {
  }

  lemma AloneStarts(key: Key, g: Generation)
    ensures var a := Alone(key, g, Probing, map[], 3); var y := Session(key, 2, false, false);
            && Enabled(a, Probed(2, true)) && Step(a, Probed(2, true)) == Alone(key, g, Starting(3), map[3 := y], 4)
            && Enabled(Alone(key, g, Starting(3), map[3 := y], 4), ChildStarts(3))
            && Step(Alone(key, g, Starting(3), map[3 := y], 4), ChildStarts(3))
               == Alone(key, g, Starting(3), map[3 := y.(alive := true)], 4)
  {
    var y := Session(key, 2, false, false);
    var a := Alone(key, g, Starting(3), map[3 := y], 4);
    assert a.openers[2].stage == Starting(3);
  }

  lemma AloneRegisters(key: Key, g: Generation)
    ensures var y := Session(key, 2, true, false); var a := Alone(key, g, Starting(3), map[3 := y], 4);
            && Enabled(a, StartReturns(2)) && IsCurrent(a, a.openers[2])
            && var t := Step(a, StartReturns(2));
               t.table.ptys == map[key := 3] && t.table.launchIds == map[key := g.launchId] && t.sessions == map[3 := y]
  {
    LeaveKeepsSessions(Register(Alone(key, g, Starting(3), map[], 4).table, key, 3, g.launchId), key, Lock(key, 0));
  }

  // It happens: some run registers a live child under its launch id.
  lemma SomeChildRegisters(key: Key, g: Generation)
    ensures exists actions :: var s := Run(INIT, actions);
              && s.table.ptys == map[key := 3] && s.table.launchIds == map[key := g.launchId]
              && s.sessions == map[3 := Session(key, 2, true, false)]
  {
    AloneOpens(key, g);
    AloneProbes(key, g);
    AloneStarts(key, g);
    AloneRegisters(key, g);
    RunNext(INIT, [], ReplaceAgents({key.agentId}));
    var one := [] + [ReplaceAgents({key.agentId})];
    RunNext(INIT, one, Open(key, g));
    var two := one + [Open(key, g)];
    RunNext(INIT, two, Enter(2, true));
    var three := two + [Enter(2, true)];
    RunNext(INIT, three, Probed(2, true));
    var four := three + [Probed(2, true)];
    RunNext(INIT, four, ChildStarts(3));
    var five := four + [ChildStarts(3)];
    RunNext(INIT, five, StartReturns(2));
    assert Run(INIT, five + [StartReturns(2)]).table.ptys == map[key := 3];
  }

  // ---- The other steps -----------------------------------------------------------------------

  // An open is admitted if and only if nothing is shut down, its agent is in the
  // directory, and it does not ask without a launch id for a key that has one, registered
  // or pending. Then one more opener waits, current, for the generation it asked for; a
  // pending request is kept exactly when it asked for the same.
  lemma OpenAdmits(actions: seq<Action>, key: Key, g: Generation)
    ensures var s := Run(INIT, actions); var t := Step(s, Open(key, g));
            var admitted := !s.table.stopped && key.agentId in s.table.agents
                            && (g.launchId.Some?
                                || ((key in s.table.launchIds ==> s.table.launchIds[key].None?)
                                    && (key in s.table.generations ==> s.table.generations[key].launchId.None?)));
            if !admitted then t == s
            else exists i :: i !in s.openers && OpenedAs(s, t, i, key, g)
  {
    Reachable(actions);
    var s := Run(INIT, actions);
    if Accepts(s.table, key, g.launchId) {
      OpenEnters(s, key, g);
      BeginPends(s.table, key, g, Lock(key, s.nextToken), s.nextToken + 1);
      assert OpenedAs(s, Step(s, Open(key, g)), s.nextToken + 2, key, g);
    }
  }

  ghost predicate OpenedAs(s: Sys, t: Sys, i: nat, key: Key, g: Generation) {
    && i in t.openers && t.openers == s.openers[i := t.openers[i]]
    && t.openers[i].key == key && t.openers[i].generation == g && t.openers[i].stage.Waiting?
    && !t.table.stopped && key.agentId in t.table.agents
    && key in t.table.locks && t.table.locks[key] == t.openers[i].lock
    && key in t.table.requests && t.table.requests[key] == t.openers[i].request
    && key in t.table.generations && t.table.generations[key] == g
    && (key in s.table.locks ==> t.table.locks[key] == s.table.locks[key])
    && (key in s.table.requests && key in s.table.generations ==>
          (t.table.requests[key] == s.table.requests[key] <==> s.table.generations[key] == g))
    && SameBut(s.table.locks, t.table.locks, key) && SameBut(s.table.requests, t.table.requests, key)
    && SameBut(s.table.generations, t.table.generations, key)
    && t.table.ptys == s.table.ptys && t.table.launchIds == s.table.launchIds
    && t.sessions == s.sessions && t.held == s.held
  }

  ghost predicate SameBut<T>(m: map<Key, T>, n: map<Key, T>, key: Key) {
    forall k :: k != key ==> (k in m <==> k in n) && (k in m ==> m[k] == n[k])
  }

  lemma BeginPends(t: Table, key: Key, g: Generation, lock: Lock, request: nat)
    requires Shape(t)
    requires forall k :: k in t.requests ==> t.requests[k] < request
    ensures var u := BeginOpen(t, key, g, lock, request);
            && u.agents == t.agents && u.stopped == t.stopped && u.ptys == t.ptys && u.launchIds == t.launchIds
            && key in u.locks && key in u.requests && key in u.generations && u.generations[key] == g
            && (key in t.locks ==> u.locks[key] == t.locks[key])
            && (key in t.requests && key in t.generations ==>
                  (u.requests[key] == t.requests[key] <==> t.generations[key] == g))
            && SameBut(t.locks, u.locks, key) && SameBut(t.requests, u.requests, key)
            && SameBut(t.generations, u.generations, key)
  {
  }

  // What an opener finds when it gets the lock. A live session is adopted under the
  // launch id of the present generation, or left alone; a dead one is unregistered and
  // told to stop; without one the opener goes on to start a child.
  ghost predicate EnterCame(s: Sys, t: Sys, i: nat, adopt: bool)
    requires i in s.openers
  {
    var o := s.openers[i];
    && (!IsCurrent(s, o) ==>
          i !in t.openers && t.table.ptys == s.table.ptys && t.table.launchIds == s.table.launchIds
          && t.sessions == s.sessions)
    && (IsCurrent(s, o) && o.key !in s.table.ptys ==>
          i in t.openers && t.openers[i] == o.(stage := Probing) && t.held == s.held[o.lock := i]
          && t.table == s.table && t.sessions == s.sessions)
    && (IsCurrent(s, o) && o.key in s.table.ptys ==>
          var x := s.table.ptys[o.key];
          x in s.sessions &&
          if s.sessions[x].alive
          then && i !in t.openers && t.table.ptys == s.table.ptys && t.sessions == s.sessions
               && t.table.launchIds == if adopt then s.table.launchIds[o.key := o.generation.launchId] else s.table.launchIds
          else && i in t.openers && t.openers[i] == o.(stage := Draining) && t.held == s.held[o.lock := i]
               && t.table.ptys == s.table.ptys - {o.key} && t.table.launchIds == s.table.launchIds - {o.key}
               && t.sessions == s.sessions[x := s.sessions[x].(stopping := true)])
  }

  // So it is in every run.
  lemma EnterDecides(actions: seq<Action>, i: nat, adopt: bool)
    requires Enabled(Run(INIT, actions), Enter(i, adopt))
    ensures var s := Run(INIT, actions); EnterCame(s, Step(s, Enter(i, adopt)), i, adopt)
  {
    Reachable(actions);
    EnteredDecides(Run(INIT, actions), i, adopt);
  }

  lemma EnteredDecides(s: Sys, i: nat, adopt: bool)
    requires SessionInv(s) && Enabled(s, Enter(i, adopt))
    ensures EnterCame(s, Step(s, Enter(i, adopt)), i, adopt)
  {
    var o := s.openers[i];
    LeaveKeepsSessions(s.table, o.key, o.lock);
    if o.key in s.table.ptys {
      LeaveKeepsSessions(s.table.(launchIds := s.table.launchIds[o.key := o.generation.launchId]), o.key, o.lock);
    }
  }

  // Once the dead session has closed, an opener goes on if and only if it is still current.
  lemma DrainDecides(s: Sys, i: nat)
    requires Enabled(s, Drained(i))
    ensures var t := Step(s, Drained(i)); var o := s.openers[i];
            && (IsCurrent(s, o) <==> i in t.openers)
            && (i in t.openers ==> t == s.(openers := s.openers[i := o.(stage := Probing)]))
            && t.table.ptys == s.table.ptys && t.table.launchIds == s.table.launchIds && t.sessions == s.sessions
  {
    LeaveKeepsSessions(s.table, s.openers[i].key, s.openers[i].lock);
  }

  // A current opener whose runtime is there creates one session, its own, and starts
  // the child; any other one leaves, having created nothing.
  lemma ProbeCreates(s: Sys, i: nat, available: bool)
    requires TokenInv(s) && Enabled(s, Probed(i, available))
    ensures var t := Step(s, Probed(i, available)); var o := s.openers[i];
            && t.table.ptys == s.table.ptys && t.table.launchIds == s.table.launchIds
            && (IsCurrent(s, o) && available <==> i in t.openers)
            && (i in t.openers ==>
                  && t.openers[i].stage.Starting? && t.openers[i] == o.(stage := t.openers[i].stage)
                  && t.openers[i].stage.session !in s.sessions
                  && t.sessions == s.sessions[t.openers[i].stage.session := Session(o.key, i, false, false)])
            && (i !in t.openers ==> t.sessions == s.sessions)
  {
    LeaveKeepsSessions(s.table, s.openers[i].key, s.openers[i].lock);
  }

  // A start that raises or is cancelled tells the child to stop and waits for it; nothing
  // else changes.
  lemma FailureStops(s: Sys, i: nat, a: Action)
    requires SessionInv(s) && Enabled(s, a) && i in s.openers && s.openers[i].stage.Starting?
    requires a == StartRaises(i) || a == Cancel(i)
    ensures var t := Step(s, a); var x := s.openers[i].stage.session;
            && x in s.sessions && t.sessions == s.sessions[x := s.sessions[x].(stopping := true)]
            && t.openers == s.openers[i := s.openers[i].(stage := Stopping(x))]
            && t.table == s.table && t.held == s.held
  {
  }

  // An opener that leaves gives its lock up, and takes its key's entry along exactly when
  // it was the last one under the key's present lock.
  ghost predicate LeaveCame(s: Sys, t: Sys, i: nat)
    requires i in s.openers
  {
    var o := s.openers[i];
    && t.openers == s.openers - {i} && t.sessions == s.sessions
    && (forall l :: l in t.held <==> l in s.held && s.held[l] != i)
    && (o.key in t.table.locks
        <==> o.key in s.table.locks
             && (s.table.locks[o.key] != o.lock || exists j :: j in t.openers && t.openers[j].lock == o.lock))
    && (forall k :: k != o.key ==> (k in t.table.locks <==> k in s.table.locks))
    && t.table.ptys == s.table.ptys && t.table.launchIds == s.table.launchIds
  }

  // So it is in every run.
  lemma LeavingClears(actions: seq<Action>, i: nat, a: Action)
    requires var s := Run(INIT, actions); Enabled(s, a) && i in s.openers && !s.openers[i].stage.Starting?
    requires a == ChildClosed(i) || a == Cancel(i)
    ensures var s := Run(INIT, actions); LeaveCame(s, Step(s, a), i)
  {
    Reachable(actions);
    LeftClears(Run(INIT, actions), i);
  }

  lemma LeftClears(s: Sys, i: nat)
    requires Shape(s.table) && LockInv(s) && UserInv(s) && i in s.openers
    ensures LeaveCame(s, Leaves(s, i), i)
  {
    var t, o := Leaves(s, i), s.openers[i];
    LeaveKeepsSessions(s.table, o.key, o.lock);
    if o.key in s.table.locks && s.table.locks[o.key] == o.lock {
      UnderDrops(s.openers, i, o.lock);
      var others := Under(t.openers, o.lock);
      if others != {} {
        var j :| j in others;
        assert j in t.openers && t.openers[j].lock == o.lock;
      }
      assert forall j :: j in t.openers && t.openers[j].lock == o.lock ==> j in others;
    }
  }

  // A close that names the launch of the pending generation, or of the registered session
  // where none is pending, forgets the key and stops its session; any other is ignored.
  lemma CloseForgets(s: Sys, key: Key, launchId: Option<string>)
    requires SessionInv(s)
    ensures var t := Step(s, CloseFrame(key, launchId));
            var target := if key in s.table.generations then s.table.generations[key].launchId
                          else if key in s.table.launchIds then s.table.launchIds[key] else None;
            if launchId != target then t == s
            else && t.table.locks == s.table.locks - {key} && t.table.users == s.table.users - {key}
                 && t.table.requests == s.table.requests - {key} && t.table.generations == s.table.generations - {key}
                 && t.table.ptys == s.table.ptys - {key} && t.table.launchIds == s.table.launchIds - {key}
                 && t.table.agents == s.table.agents && t.table.stopped == s.table.stopped
                 && t.openers == s.openers && t.held == s.held
                 && Told(s, t, if key in s.table.ptys then {s.table.ptys[key]} else {})
  {
  }

  // Exactly these sessions are told to stop.
  ghost predicate Told(s: Sys, t: Sys, doomed: set<nat>) {
    && (forall x :: x in s.sessions <==> x in t.sessions)
    && (forall x :: x in s.sessions ==>
          t.sessions[x] == if x in doomed then s.sessions[x].(stopping := true) else s.sessions[x])
  }

  // Retiring agents drops every key of theirs and no other, and stops the sessions
  // registered there.
  lemma RetireForgets(s: Sys, removed: set<string>)
    ensures var t := Step(s, RetireAgents(removed));
            && (forall k :: k in t.table.locks <==> k in s.table.locks && k.agentId !in removed)
            && (forall k :: k in t.table.requests <==> k in s.table.requests && k.agentId !in removed)
            && (forall k :: k in t.table.generations <==> k in s.table.generations && k.agentId !in removed)
            && (forall k :: k in t.table.ptys <==> k in s.table.ptys && k.agentId !in removed)
            && (forall k :: k in t.table.launchIds <==> k in s.table.launchIds && k.agentId !in removed)
            && (forall k :: k in t.table.ptys ==> t.table.ptys[k] == s.table.ptys[k])
            && t.table.agents == s.table.agents && t.openers == s.openers
            && (forall x :: x in s.sessions ==>
                  x in t.sessions
                  && (t.sessions[x].stopping
                      <==> s.sessions[x].stopping
                           || exists k :: k in s.table.ptys && k.agentId in removed && s.table.ptys[k] == x))
  {
  }

  // A shutdown stops every registered session, forgets all keys and admits no more.
  lemma ShutdownForgets(s: Sys)
    requires !s.table.stopped
    ensures var t := Step(s, ShutdownAll);
            && t.table == Table(s.table.agents, true, map[], map[], map[], map[], map[], map[])
            && t.openers == s.openers && t.held == s.held
            && Told(s, t, s.table.ptys.Values)
  {
  }

  // An exit unregisters the session that exited and nothing else.
  lemma ExitUnregisters(actions: seq<Action>, x: nat)
    requires Enabled(Run(INIT, actions), ExitReported(x))
    ensures var s := Run(INIT, actions); var t := Step(s, ExitReported(x));
            && (forall k :: k in t.table.ptys <==> k in s.table.ptys && s.table.ptys[k] != x)
            && (forall k :: k in t.table.ptys ==> t.table.ptys[k] == s.table.ptys[k])
            && (forall k :: k in t.table.launchIds <==> k in t.table.ptys)
            && t == s.(table := s.table.(ptys := t.table.ptys, launchIds := t.table.launchIds))
  {
    Reachable(actions);
    ReportUnregisters(Run(INIT, actions), x);
  }

  lemma ReportUnregisters(s: Sys, x: nat)
    requires SessionInv(s) && Shape(s.table) && Enabled(s, ExitReported(x))
    ensures var t := Step(s, ExitReported(x));
            && (forall k :: k in t.table.ptys <==> k in s.table.ptys && s.table.ptys[k] != x)
            && (forall k :: k in t.table.ptys ==> t.table.ptys[k] == s.table.ptys[k])
            && (forall k :: k in t.table.launchIds <==> k in t.table.ptys)
            && t == s.(table := s.table.(ptys := t.table.ptys, launchIds := t.table.launchIds))
  {
    assert forall k :: k in s.table.ptys && s.table.ptys[k] == x ==> k == s.sessions[x].key;
  }
}
