// A channel whose sends never suspend, as an in-memory queue or a socket with room in
// its buffer: each pass of the drain loop runs through in one burst. What then still
// gets through after a restart, and what makes the loop hang again at once.
module PipelineBursts {
  import opened Common
  import opened Ipc
  import Spool
  import Sender
  import SenderProgress
  import opened Pipeline
  import opened PipelineSafety
  import opened PipelineProgress

  predicate MidPass(s: Sys) {
    !s.hung && (s.sup.drain.InControls? || s.sup.drain.InRows?)
  }

  // Nothing else of the supervisor's process comes between two sends of a pass.
  ghost predicate Uninterrupted(s: Sys, actions: seq<Action>)
    decreases |actions|
  {
    actions == [] || ((MidPass(s) && OfSupervisor(actions[0]) ==> actions[0].Drain?)
                      && Uninterrupted(Step(s, actions[0]), actions[1..]))
  }

  lemma {:induction false} UninterruptedAppend(s: Sys, a: seq<Action>, b: seq<Action>)
    requires Uninterrupted(s, a) && Uninterrupted(Run(s, a), b)
    ensures Uninterrupted(s, a + b)
    decreases |a|
  {
    if a == [] {
      assert a + b == b;
    } else {
      assert (a + b)[1..] == a[1..] + b;
      UninterruptedAppend(Step(s, a[0]), a[1..], b);
    }
  }

  lemma {:induction false} OutsideUninterrupted(s: Sys, actions: seq<Action>)
    requires Outside(actions)
    ensures Uninterrupted(s, actions)
    decreases |actions|
  {
    if actions != [] {
      OutsideUninterrupted(Step(s, actions[0]), actions[1..]);
    }
  }

  lemma UninterruptedOne(s: Sys, a: Action)
    requires MidPass(s) && OfSupervisor(a) ==> a.Drain?
    ensures Uninterrupted(s, [a]) && Run(s, [a]) == Step(s, a)
  {
    assert [a][1..] == [];
    RunOne(s, a);
  }

  // ---- When a burst does not end in the endless round ------------------------------------

  // The first j rows are sent up to the last one, which the byte bound does not admit.
  ghost predicate Blocks(rows: seq<Spool.Row>, j: nat) {
    && 2 <= j <= |rows| && j <= Sender.MAX_INFLIGHT_FRAMES
    && SenderProgress.AllDeliverable(rows[..j - 1])
    && SenderProgress.RowBytes(rows[..j]) > Sender.MAX_INFLIGHT_BYTES
  }

  ghost predicate HeadBlocks(rows: seq<Spool.Row>) {
    exists j: nat :: Blocks(rows, j)
  }

  lemma BlocksExceeds(sup: Sender.Sup, j: nat)
    requires Blocks(sup.spool.rows, j)
    ensures !SenderProgress.Fits(sup)
  {
    assert sup.spool.rows[0..j] == sup.spool.rows[..j];
    assert SenderProgress.Reached(sup, 0, j);
  }

  lemma FitsNotBlocked(sup: Sender.Sup)
    requires SenderProgress.Fits(sup)
    ensures !HeadBlocks(sup.spool.rows)
  {
    forall j: nat | Blocks(sup.spool.rows, j)
      ensures false
    {
      BlocksExceeds(sup, j);
    }
  }

  lemma UnblockedNeverSpins(sup: Sender.Sup)
    requires SenderProgress.Sound(sup) && Sender.Running(sup) && sup.controls == [] && !HeadBlocks(sup.spool.rows)
    ensures !Sender.Resume(sup).Spins?
  {
    Sender.ResumeEffect(sup);
    if Sender.Resume(sup).Spins? {
      Sender.SpinMeansBlocked(sup);
      BlockedMeans(sup);
    }
  }

  lemma BlockedMeans(sup: Sender.Sup)
    requires SenderProgress.Sound(sup) && Sender.Running(sup) && sup.controls == [] && Sender.HasSendable(sup)
    requires Sender.ByteBlocked(sup.(event := false, drain := Sender.AtTop))
    ensures HeadBlocks(sup.spool.rows)
  {
    var n := SenderProgress.BytesOfPrefix(sup);
    SenderProgress.SentDeliverable(sup, n);
    SenderProgress.RowsTakeSlots(sup.inflight, sup.spool.rows[..n]);
    if n == 0 {
      SenderProgress.LoneControl(sup);
    }
    NextTooLarge(sup, n);
    assert Blocks(sup.spool.rows, n + 1);
  }

  // The row that blocks is the first one behind those in flight.
  lemma NextTooLarge(sup: Sender.Sup, n: nat)
    requires Sender.InFlightPrefix(sup, n) && sup.inflightBytes == SenderProgress.RowBytes(sup.spool.rows[..n])
    requires Sender.ByteBlocked(sup.(event := false, drain := Sender.AtTop))
    ensures n < |sup.spool.rows| && SenderProgress.RowBytes(sup.spool.rows[..n + 1]) > Sender.MAX_INFLIGHT_BYTES
  {
    var rows := sup.spool.rows;
    Sender.SameFirstUnsent(sup, sup.(event := false, drain := Sender.AtTop), rows);
    SenderProgress.FirstUnsentAt(sup, rows, n);
    assert rows[..n + 1][..n] == rows[..n];
  }

  // ---- The window -----------------------------------------------------------------------------

  // The first n rows, and no others, are in flight and were sent.
  ghost predicate Flying(sup: Sender.Sup, n: nat) {
    && n <= |sup.spool.rows|
    && forall i :: 0 <= i < |sup.spool.rows| ==>
         (Sender.InFlight(sup.inflight, Sender.RowId(sup.spool.rows[i].ord)) && Deliverable(sup.spool.rows[i]) <==> i < n)
  }

  lemma FlyingPrefix(sup: Sender.Sup, n: nat)
    requires SenderProgress.Sound(sup) && !sup.drain.Detached? && Flying(sup, n)
    ensures Sender.InFlightPrefix(sup, n)
  {
    forall i | 0 <= i < |sup.spool.rows| && Sender.InFlight(sup.inflight, Sender.RowId(sup.spool.rows[i].ord))
      ensures Deliverable(sup.spool.rows[i])
    {
      assert sup.spool.rows[i] in sup.spool.rows;
    }
  }

  // What the loop takes next is the first row that is not in flight.
  lemma TakesNext(sup: Sender.Sup, n: nat, r: Spool.Row)
    requires SenderProgress.Sound(sup) && Sender.Running(sup) && Sender.InFlightPrefix(sup, n)
    requires Sender.Taken(Sender.Resume(sup)) == Some(r)
    ensures n < |sup.spool.rows| && r == sup.spool.rows[n]
    ensures Sender.InFlightPrefix(Sender.Resume(sup).next, n + 1)
  {
    var rows, next := sup.spool.rows, Sender.Resume(sup).next;
    Sender.ResumeEffect(sup);
    Sender.ResumeDelivers(sup);
    Sender.SlotsAppend(sup.inflight, Sender.Slot(Sender.RowId(r.ord), Sender.RowSize(r)));
    Sender.MarkedPrefix(next, 0);
    var m: nat :| Sender.InFlightPrefix(next, m);
    var j :| 0 <= j < |rows| && rows[j] == r;
    assert Sender.InFlight(next.inflight, Sender.RowId(rows[j].ord)) && n <= j < m;
    assert Sender.InFlight(next.inflight, Sender.RowId(rows[n].ord));
    assert rows[n].ord == rows[j].ord;
    forall i | 0 <= i < |rows|
      ensures Sender.InFlight(next.inflight, Sender.RowId(rows[i].ord)) <==> i < n + 1
    {
      assert rows[i].ord == rows[n].ord <==> i == n;
    }
  }

  lemma NoControlGoes(sup: Sender.Sup)
    requires SenderProgress.Sound(sup) && Sender.Running(sup) && sup.controls == []
    ensures Sender.Resume(sup).Sends? ==> Sender.Resume(sup).what.RowDelivery?
  {
    var step := Sender.Resume(sup);
    Sender.ResumeEffect(sup);
    SenderProgress.ResumeBooks(sup);
    assert step.Sends? && step.what.ControlDelivery? ==>
             Sender.Present(step.next, step.next.inflight[|sup.inflight|].id);
  }

  // One step of a loop that does not spin: the next row goes out, or the burst is over.
  lemma FlyingStep(sup: Sender.Sup, n: nat)
    requires SenderProgress.Sound(sup) && Sender.Running(sup) && sup.controls == [] && Flying(sup, n)
    requires !Sender.Resume(sup).Spins?
    ensures var step := Sender.Resume(sup);
            && step.next.spool == sup.spool && step.next.controls == []
            && (step.Sends? ==> n < |sup.spool.rows| && step.what == Sender.RowDelivery(sup.spool.rows[n])
                                && Flying(step.next, n + 1))
            && (!step.Sends? ==> Flying(step.next, n) && !Sender.Running(step.next))
  {
    var step := Sender.Resume(sup);
    Sender.ResumeEffect(sup);
    NoControlGoes(sup);
    FlyingPrefix(sup, n);
    match Sender.Taken(step)
    case Some(r) =>
      TakesNext(sup, n, r);
      Sender.ResumeDelivers(sup);
      TakenFlies(sup, step.next, n);
    case None =>
  }

  lemma TakenFlies(sup: Sender.Sup, next: Sender.Sup, n: nat)
    requires Flying(sup, n) && n < |sup.spool.rows| && next.spool == sup.spool
    requires Sender.InFlightPrefix(sup, n) && Sender.InFlightPrefix(next, n + 1)
    ensures Flying(next, if Deliverable(sup.spool.rows[n]) then n + 1 else n)
  {
  }

  // The connection holds exactly what is in flight, before the transport.
  ghost predicate Window(s: Sys, n: nat) {
    && SenderProgress.Sound(s.sup) && s.sup.controls == [] && Flying(s.sup, n)
    && Carries(s, s.sup.spool.rows[..n], [], [], []) && Attached(s) !in s.world.held
  }

  lemma BurstStep(s: Sys, n: nat) returns (m: nat)
    requires Window(s, n) && Sender.Running(s.sup) && !HeadBlocks(s.sup.spool.rows)
    ensures m == if Sender.Resume(s.sup).Sends? then n + 1 else n
    ensures Window(Step(s, Drain), m)
    ensures Step(s, Drain).sup == Sender.Resume(s.sup).next
    ensures Step(s, Drain).log == s.log && Step(s, Drain).sup.spool == s.sup.spool
  {
    m := if Sender.Resume(s.sup).Sends? then n + 1 else n;
    UnblockedNeverSpins(s.sup);
    FlyingStep(s.sup, n);
    SenderProgress.HandleSound(s.sup, Sender.ResumeEvent);
    BurstCarries(s, n);
  }

  lemma BurstCarries(s: Sys, n: nat)
    requires n <= |s.sup.spool.rows|
    requires Carries(s, s.sup.spool.rows[..n], [], [], []) && Attached(s) !in s.world.held
    requires Sender.Running(s.sup) && !Sender.Resume(s.sup).Spins?
    requires var step := Sender.Resume(s.sup);
             step.Sends? ==> n < |s.sup.spool.rows| && step.what == Sender.RowDelivery(s.sup.spool.rows[n])
    ensures var t := Step(s, Drain); var sends := Sender.Resume(s.sup).Sends?;
            && t.sup == Sender.Resume(s.sup).next && t.log == s.log
            && Carries(t, s.sup.spool.rows[..if sends then n + 1 else n], [], [], []) && Attached(t) !in t.world.held
  {
    assert n < |s.sup.spool.rows| ==> s.sup.spool.rows[..n] + [s.sup.spool.rows[n]] == s.sup.spool.rows[..n + 1];
  }

  // ---- An acknowledgement ------------------------------------------------------------------------

  lemma FlyingAck(sup: Sender.Sup, n: nat)
    requires SenderProgress.Sound(sup) && sup.controls == [] && Flying(sup, n) && n > 0
    ensures SenderProgress.InOrder(sup, Sender.RowId(sup.spool.rows[0].ord))
    ensures var t := Sender.ApplyAck(sup, Sender.RowId(sup.spool.rows[0].ord));
            && SenderProgress.Sound(t) && t.controls == [] && t.drain == sup.drain
            && t.spool.rows == sup.spool.rows[1..] && Flying(t, n - 1)
  {
    var rows := sup.spool.rows;
    var id := Sender.RowId(rows[0].ord);
    var t := Sender.ApplyAck(sup, id);
    assert Sender.InFlight(sup.inflight, Sender.RowId(rows[0].ord)) && Deliverable(rows[0]);
    SenderProgress.InOrderAcks(sup, id);
    SenderProgress.HandleSound(sup, Sender.AckEvent(id));
    Sender.DropMeans(sup.inflight, id);
    forall i | 0 <= i < |t.spool.rows|
      ensures Sender.InFlight(t.inflight, Sender.RowId(t.spool.rows[i].ord)) && Deliverable(t.spool.rows[i]) <==> i < n - 1
    {
      assert t.spool.rows[i] == rows[i + 1] && rows[0].ord < rows[i + 1].ord;
    }
  }

  lemma ReadsAck(s: Sys, ord: nat, rest: seq<Spool.Row>)
    requires Carries(s, rest, [], [], [DeliveryAck(ord)]) && Attached(s) !in s.world.held
    ensures var t := Step(s, SupervisorRead(Attached(s)));
            && t.sup == Sender.ApplyAck(s.sup, Sender.RowId(ord)) && t.log == s.log
            && Carries(t, rest, [], [], []) && Attached(t) !in t.world.held
  {
    assert [DeliveryAck(ord)][1..] == [];
  }

  lemma AckShrinks(s: Sys, t: Sys, n: nat)
    requires Window(s, n) && n > 0 && Same(s, t) && Attached(t) !in t.world.held
    requires Carries(t, s.sup.spool.rows[..n][1..], [], [], [DeliveryAck(s.sup.spool.rows[0].ord)])
    ensures var u := Step(t, SupervisorRead(Attached(t)));
            && Window(u, n - 1) && u.log == s.log
            && u.sup == Sender.ApplyAck(s.sup, Sender.RowId(s.sup.spool.rows[0].ord))
  {
    var rows := s.sup.spool.rows;
    FlyingAck(s.sup, n);
    ReadsAck(t, rows[0].ord, rows[..n][1..]);
    assert rows[..n][1..] == rows[1..][..n - 1];
  }

  // The oldest row is stored and acknowledged, between two bursts.
  lemma OldestLeaves(s: Sys, n: nat) returns (actions: seq<Action>)
    requires Reachable(s) && Window(s, n) && n > 0 && !MidPass(s)
    ensures Uninterrupted(s, actions) && NoControls(actions)
    ensures var t := Run(s, actions);
            && Window(t, n - 1) && t.log == s.log
            && t.sup == Sender.ApplyAck(s.sup, Sender.RowId(s.sup.spool.rows[0].ord))
  {
    var rows := s.sup.spool.rows;
    assert rows[..n] == [rows[0]] + rows[..n][1..];
    var arrive := RowArrives(s, rows[0], rows[..n][1..]);
    var t := Run(s, arrive);
    AckShrinks(s, t, n);
    actions := arrive + [SupervisorRead(Attached(t))];
    ThenReads(s, arrive);
  }

  lemma ThenReads(s: Sys, arrive: seq<Action>)
    requires Outside(arrive) && var t := Run(s, arrive); t.conns != [] && !MidPass(t)
    ensures var t := Run(s, arrive); var read := SupervisorRead(Attached(t));
            && Uninterrupted(s, arrive + [read]) && NoControls(arrive + [read])
            && Run(s, arrive + [read]) == Step(t, read)
  {
    var t := Run(s, arrive);
    var read := SupervisorRead(Attached(t));
    OutsideUninterrupted(s, arrive);
    UninterruptedOne(t, read);
    UninterruptedAppend(s, arrive, [read]);
    RunAppend(s, arrive, [read]);
  }

  ghost predicate NoControls(actions: seq<Action>) {
    forall a :: a in actions ==> !a.EmitControl?
  }

  // ---- Everything ---------------------------------------------------------------------------------

  lemma WakesUp(s: Sys, n: nat)
    requires Window(s, n) && s.sup.drain.Waiting? && s.sup.event
    ensures var t := Step(s, Wake); Window(t, n) && t.sup == Sender.Wake(s.sup) && t.log == s.log
  {
    SenderProgress.HandleSound(s.sup, Sender.WakeEvent);
  }

  // Where the loop has nothing to do: an acknowledgement is due, or nothing can be sent.
  lemma OverOrFlying(s: Sys, n: nat)
    requires Window(s, n) && SenderProgress.AtWork(s.sup)
    requires !Sender.Running(s.sup) && !(s.sup.drain.Waiting? && s.sup.event)
    ensures n > 0 || Delivered(s)
  {
    SenderProgress.TurnOrDrained(s.sup);
    if !Delivered(s) {
      var e :| SenderProgress.Turn(s.sup, e);
      assert e == Sender.AckEvent(Sender.RowId(s.sup.spool.rows[0].ord));
    }
  }

  // What the continuation goes on from, nearer to the end than s.
  ghost predicate Nearer(s: Sys, t: Sys, m: nat) {
    && Window(t, m) && SenderProgress.AtWork(t.sup) && SenderProgress.Fits(t.sup) && t.log == s.log
    && SenderProgress.Measure(t.sup) < SenderProgress.Measure(s.sup)
  }

  lemma MovesOn(s: Sys, n: nat) returns (m: nat)
    requires Window(s, n) && SenderProgress.AtWork(s.sup) && SenderProgress.Fits(s.sup) && Sender.Running(s.sup)
    ensures Nearer(s, Step(s, Drain), m)
  {
    FitsNotBlocked(s.sup);
    SenderProgress.TurnProgresses(s.sup, Sender.ResumeEvent);
    m := BurstStep(s, n);
  }

  lemma MovesAwake(s: Sys, n: nat)
    requires Window(s, n) && SenderProgress.AtWork(s.sup) && SenderProgress.Fits(s.sup)
    requires s.sup.drain.Waiting? && s.sup.event
    ensures Nearer(s, Step(s, Wake), n)
  {
    SenderProgress.TurnProgresses(s.sup, Sender.WakeEvent);
    WakesUp(s, n);
  }

  lemma MovesAck(s: Sys, n: nat) returns (actions: seq<Action>)
    requires Reachable(s) && Window(s, n) && SenderProgress.AtWork(s.sup) && SenderProgress.Fits(s.sup)
    requires n > 0 && !MidPass(s)
    ensures Uninterrupted(s, actions) && NoControls(actions) && Nearer(s, Run(s, actions), n - 1)
  {
    FlyingAck(s.sup, n);
    SenderProgress.TurnProgresses(s.sup, Sender.AckEvent(Sender.RowId(s.sup.spool.rows[0].ord)));
    actions := OldestLeaves(s, n);
  }

  lemma Moves(s: Sys, n: nat) returns (actions: seq<Action>, m: nat)
    requires Reachable(s) && Window(s, n) && SenderProgress.AtWork(s.sup) && SenderProgress.Fits(s.sup)
    requires !Delivered(s) || Sender.Running(s.sup)
    ensures Uninterrupted(s, actions) && NoControls(actions) && Nearer(s, Run(s, actions), m)
  {
    if Sender.Running(s.sup) {
      m := MovesOn(s, n);
      UninterruptedOne(s, Drain);
      actions := [Drain];
    } else if s.sup.drain.Waiting? && s.sup.event {
      MovesAwake(s, n);
      UninterruptedOne(s, Wake);
      actions, m := [Wake], n;
    } else {
      OverOrFlying(s, n);
      actions := MovesAck(s, n);
      m := n - 1;
    }
  }

  // In bursts and acknowledgements by turns, everything that can be sent is stored.
  lemma {:induction false} DeliversInBursts(s: Sys, n: nat) returns (actions: seq<Action>)
    requires Reachable(s) && Window(s, n) && SenderProgress.AtWork(s.sup) && SenderProgress.Fits(s.sup)
    ensures Uninterrupted(s, actions) && NoControls(actions)
    ensures Run(s, actions).log == s.log && Delivered(Run(s, actions))
    decreases SenderProgress.Measure(s.sup)
  {
    if Delivered(s) && !Sender.Running(s.sup) {
      actions := [];
    } else {
      var first, m := Moves(s, n);
      var t := Run(s, first);
      SenderProgress.MeasureBounds(s.sup);
      ReachableRun(s, first);
      var rest := DeliversInBursts(t, m);
      UninterruptedAppend(s, first, rest);
      RunAppend(s, first, rest);
      actions := first + rest;
    }
  }

  lemma FreshWindow(spool: Spool.State)
    requires Spool.Inv(spool)
    ensures var sup := Sender.Attach(Sender.Start(spool));
            && SenderProgress.Sound(sup) && SenderProgress.AtHead(sup) && SenderProgress.AtWork(sup)
            && sup.controls == [] && Flying(sup, 0) && sup.spool == spool
  {
    SenderProgress.StartSound(spool);
    SenderProgress.HandleSound(Sender.Start(spool), Sender.AttachEvent);
  }

  lemma RestartsAttached(s: Sys)
    requires Reachable(s)
    ensures var t := Run(s, [CrashSupervisor, AttachNew]);
            && Reachable(t) && Window(t, 0) && SenderProgress.AtHead(t.sup) && SenderProgress.AtWork(t.sup)
            && t.log == s.log && t.sup == Sender.Attach(Sender.Start(s.sup.spool))
    ensures Uninterrupted(s, [CrashSupervisor, AttachNew])
  {
    var restart := Step(s, CrashSupervisor);
    RunTwo(s, CrashSupervisor, AttachNew);
    ReachableStep(s, CrashSupervisor);
    ReachableStep(restart, AttachNew);
    AttachesReady(restart);
    SpoolOk(s);
    FreshWindow(s.sup.spool);
    UninterruptedOne(s, CrashSupervisor);
    UninterruptedOne(restart, AttachNew);
    UninterruptedAppend(s, [CrashSupervisor], [AttachNew]);
    assert [CrashSupervisor] + [AttachNew] == [CrashSupervisor, AttachNew];
  }

  // Over a channel that never suspends, too, a restart and a reconnect store everything
  // that can be sent, if the rows that wait fit the byte bound.
  lemma BurstsDeliver(before: seq<Action>)
    requires SenderProgress.Fits(Sender.Attach(Sender.Start(Run(INIT, before).sup.spool)))
    ensures exists after: seq<Action> ::
              var s := Run(INIT, before); var t := Run(s, after);
              Uninterrupted(s, after) && t.log == s.log && StoredUpTo(t, Clear(t.log))
  {
    var s := Run(INIT, before);
    var restart := [CrashSupervisor, AttachNew];
    RestartsAttached(s);
    var t := Run(s, restart);
    var rest := DeliversInBursts(t, 0);
    UninterruptedAppend(s, restart, rest);
    RunAppend(s, restart, rest);
    ReachableRun(t, rest);
    DeliveredStores(Run(t, rest));
    assert Uninterrupted(s, restart + rest);
  }

  // ---- One burst -------------------------------------------------------------------------------------

  lemma BurstShrinks(sup: Sender.Sup)
    requires SenderProgress.Sound(sup) && Sender.Running(sup) && !Sender.Resume(sup).Spins?
    ensures var next := Sender.Resume(sup).next;
            && |sup.inflight| <= |next.inflight| <= Sender.MAX_INFLIGHT_FRAMES
            && (Sender.Running(next) ==> |sup.inflight| < |next.inflight|)
  {
    Sender.ResumeEffect(sup);
  }

  // The loop sends what it can and sleeps, or ends.
  lemma {:induction false} BurstEnds(s: Sys, n: nat) returns (actions: seq<Action>, m: nat)
    requires Window(s, n) && !HeadBlocks(s.sup.spool.rows)
    ensures Uninterrupted(s, actions) && NoControls(actions)
    ensures var t := Run(s, actions);
            m >= n && Window(t, m) && !Sender.Running(t.sup) && t.log == s.log && t.sup.spool == s.sup.spool
    decreases Sender.MAX_INFLIGHT_FRAMES - |s.sup.inflight|, Sender.Running(s.sup)
  {
    if Sender.Running(s.sup) {
      UnblockedNeverSpins(s.sup);
      BurstShrinks(s.sup);
      var k := BurstStep(s, n);
      UninterruptedOne(s, Drain);
      var rest;
      rest, m := BurstEnds(Step(s, Drain), k);
      UninterruptedAppend(s, [Drain], rest);
      RunAppend(s, [Drain], rest);
      actions := [Drain] + rest;
    } else {
      actions, m := [], n;
    }
  }

  // With a row in flight, the rest of the burst and one acknowledgement.
  lemma OldestFollows(s: Sys, n: nat) returns (actions: seq<Action>)
    requires Reachable(s) && Window(s, n) && n > 0 && !HeadBlocks(s.sup.spool.rows)
    ensures Uninterrupted(s, actions) && NoControls(actions)
    ensures Run(s, actions).sup.spool.rows == s.sup.spool.rows[1..]
  {
    var burst, m := BurstEnds(s, n);
    var t := Run(s, burst);
    ReachableRun(s, burst);
    FlyingAck(t.sup, m);
    var leave := OldestLeaves(t, m);
    UninterruptedAppend(s, burst, leave);
    RunAppend(s, burst, leave);
    actions := burst + leave;
  }

  // The oldest row leaves in the first burst after a restart.
  lemma RestartMoves(s: Sys) returns (after: seq<Action>)
    requires Reachable(s)
    requires s.sup.spool.rows != [] && Deliverable(s.sup.spool.rows[0]) && !HeadBlocks(s.sup.spool.rows)
    ensures Uninterrupted(s, after) && NoControls(after)
    ensures Run(s, after).sup.spool.rows == s.sup.spool.rows[1..]
  {
    var restart := [CrashSupervisor, AttachNew];
    RestartsAttached(s);
    var t := Run(s, restart);
    SenderProgress.RowGoes(t.sup);
    var one := BurstStep(t, 0);
    UninterruptedOne(t, Drain);
    ReachableStep(t, Drain);
    var rest := OldestFollows(Step(t, Drain), one);
    UninterruptedAppend(t, [Drain], rest);
    RunAppend(t, [Drain], rest);
    UninterruptedAppend(s, restart, [Drain] + rest);
    RunAppend(s, restart, [Drain] + rest);
    after := restart + ([Drain] + rest);
  }

  // ---- When every restart hangs again ------------------------------------------------------------------

  // Nothing is in flight and no pass has begun.
  ghost predicate Idle(sup: Sender.Sup) {
    sup.inflight == [] && sup.inflightBytes == 0 && (sup.drain.Detached? || sup.drain.AtTop?)
  }

  // The loop hangs, or has not begun its pass, or is on its way to the row that blocks it.
  ghost predicate Jammed(s: Sys, rows: seq<Spool.Row>, j: nat) {
    && Blocks(rows, j) && rows <= s.sup.spool.rows && s.sup.controls == [] && Sender.SupInv(s.sup)
    && (s.hung || Idle(s.sup) || exists m: nat :: m < j && SenderProgress.Filled(s.sup, m))
  }

  lemma JamStarts(s: Sys, rows: seq<Spool.Row>, j: nat)
    requires Jammed(s, rows, j) && !s.hung && Idle(s.sup)
    ensures Jammed(Step(s, Drain), rows, j)
  {
    if s.sup.drain.AtTop? {
      assert rows[..j - 1][0] == s.sup.spool.rows[0];
      SenderProgress.RowGoes(s.sup);
      SenderProgress.FillStarts(s.sup);
      Sender.ResumeInv(s.sup);
      DrainsOn(s);
      assert SenderProgress.Filled(Step(s, Drain).sup, 1);
    }
  }

  // From a partly filled window on: the row that blocks is next, or one more is sent.
  lemma FillingStep(sup: Sender.Sup, rows: seq<Spool.Row>, j: nat, m: nat)
    requires SenderProgress.Filled(sup, m) && m < j && Blocks(rows, j) && rows <= sup.spool.rows
    ensures Sender.Running(sup)
    ensures Sender.Resume(sup).Spins? || (m + 1 < j && SenderProgress.Filled(Sender.Resume(sup).next, m + 1))
  {
    var all := sup.spool.rows;
    assert all[..j] == rows[..j];
    if SenderProgress.RowBytes(all[..m + 1]) > Sender.MAX_INFLIGHT_BYTES {
      SenderProgress.FilledSpins(sup, m);
    } else {
      assert m + 1 != j;
      assert rows[..j - 1][m] == all[m];
      SenderProgress.FillSteps(sup, m);
    }
  }

  lemma FillingKeeps(sup: Sender.Sup, m: nat)
    requires Sender.SupInv(sup) && SenderProgress.Filled(sup, m)
    ensures var next := Sender.Resume(sup).next;
            Sender.SupInv(next) && next.spool == sup.spool && next.controls == []
  {
    Sender.ResumeInv(sup);
    Sender.ScanOutcome(sup, sup.drain.rows, true);
  }

  lemma JamGoesOn(s: Sys, rows: seq<Spool.Row>, j: nat, m: nat)
    requires Jammed(s, rows, j) && !s.hung && m < j && SenderProgress.Filled(s.sup, m)
    ensures Jammed(Step(s, Drain), rows, j)
  {
    FillingStep(s.sup, rows, j, m);
    FillingKeeps(s.sup, m);
    DrainsOn(s);
    assert Sender.Resume(s.sup).Spins? || SenderProgress.Filled(Step(s, Drain).sup, m + 1);
  }

  lemma DrainsOn(s: Sys)
    requires !s.hung && Sender.Running(s.sup)
    ensures Step(s, Drain).sup == Sender.Resume(s.sup).next
    ensures Step(s, Drain).hung <==> Sender.Resume(s.sup).Spins?
  {
  }

  lemma JamEmits(s: Sys, rows: seq<Spool.Row>, j: nat, f: Frame, bytes: nat)
    requires Jammed(s, rows, j) && !s.hung && Idle(s.sup)
    ensures Jammed(Step(s, Emit(f, bytes)), rows, j)
  {
    Sender.EmitOutputInv(s.sup, f, bytes);
  }

  // An acknowledgement that comes while nothing is in flight is ignored.
  lemma JamReads(s: Sys, rows: seq<Spool.Row>, j: nat, i: nat)
    requires Reachable(s) && Jammed(s, rows, j) && !s.hung && Idle(s.sup)
    ensures Jammed(Step(s, SupervisorRead(i)), rows, j)
  {
    if i < |s.conns| && s.conns[i].up != [] {
      OnlyAcks(s, i);
    }
  }

  lemma OnlyAcks(s: Sys, i: nat)
    requires Reachable(s) && i < |s.conns| && s.conns[i].up != []
    ensures s.conns[i].up[0].DeliveryAck?
  {
    ReachableInv(s);
    ConnAt(s, i);
    FirstMessage(s, s.conns[i]);
  }

  lemma JamStep(s: Sys, rows: seq<Spool.Row>, j: nat, a: Action)
    requires Reachable(s) && Jammed(s, rows, j) && !a.EmitControl?
    requires MidPass(s) && OfSupervisor(a) ==> a.Drain?
    ensures Jammed(Step(s, a), rows, j)
  {
    if a.CrashSupervisor? {
      Sender.StartInv(s.sup.spool);
    } else if !s.hung && OfSupervisor(a) {
      if Idle(s.sup) {
        match a
        case Drain => JamStarts(s, rows, j);
        case Emit(f, bytes) => JamEmits(s, rows, j, f, bytes);
        case SupervisorRead(i) => JamReads(s, rows, j, i);
        case AttachNew => Sender.AttachInv(s.sup);
        case _ =>
      } else {
        var m: nat :| m < j && SenderProgress.Filled(s.sup, m);
        JamGoesOn(s, rows, j, m);
      }
    }
  }

  lemma {:induction false} JamRun(s: Sys, rows: seq<Spool.Row>, j: nat, after: seq<Action>)
    requires Reachable(s) && Jammed(s, rows, j) && Uninterrupted(s, after) && NoControls(after)
    ensures Jammed(Run(s, after), rows, j)
    decreases |after|
  {
    if after != [] {
      JamStep(s, rows, j, after[0]);
      ReachableStep(s, after[0]);
      JamRun(Step(s, after[0]), rows, j, after[1..]);
    }
  }

  // ---- When the oldest row cannot be sent -------------------------------------------------------------------

  lemma BlockedStays(s: Sys, after: seq<Action>, r: Spool.Row)
    requires Reachable(s) && Delivered(s) && r in s.sup.spool.rows
    ensures r in Run(s, after).sup.spool.rows
  {
    var t := Run(s, after);
    ReachableInv(s);
    ReachableRun(s, after);
    ReachableInv(t);
    RunGrows(s, after);
    NothingClearWaits(s, r);
    assert Placed(s.log, r);
    StillBlocked(s.log, t.log);
    var p := BlockedWait(t, r.ord - 1);
    assert p in s.sup.spool.rows;
    OrdUnique(s.sup.spool, p, r);
  }

  // Two frames of more than the byte bound together block the head.
  lemma TwoLargeFramesBlock(rows: seq<Spool.Row>)
    requires |rows| >= 2 && Deliverable(rows[0])
    requires Sender.RowSize(rows[0]) + Sender.RowSize(rows[1]) > Sender.MAX_INFLIGHT_BYTES
    ensures HeadBlocks(rows)
  {
    assert rows[..2][..1] == rows[..1] && rows[..1][..0] == [] && rows[..2][1] == rows[1];
    assert Blocks(rows, 2);
  }

  // ---- Exactly when a restart helps -------------------------------------------------------------------------

  ghost predicate Leaves(s: Sys, after: seq<Action>) {
    exists r :: r in s.sup.spool.rows && r !in Run(s, after).sup.spool.rows
  }

  lemma JammedKeeps(s: Sys, after: seq<Action>)
    requires Reachable(s) && HeadBlocks(s.sup.spool.rows)
    requires !s.hung && Idle(s.sup) && s.sup.controls == []
    requires Uninterrupted(s, after) && NoControls(after)
    ensures !Leaves(s, after)
  {
    var rows := s.sup.spool.rows;
    var j: nat :| Blocks(rows, j);
    ReachableInv(s);
    JamRun(s, rows, j, after);
  }

  // Over a channel that never suspends, a supervisor that was restarted, as often as it
  // may be, acknowledges anything of what waits exactly when the oldest row can be sent
  // and the first rows, up to 64, fit the byte bound. Otherwise each restart ends in the
  // same round, or on the same row, before anything is acknowledged. Controls apart,
  // which take places in the window.
  lemma RestartHelpsIff(before: seq<Action>)
    ensures var s := Step(Run(INIT, before), CrashSupervisor); var rows := s.sup.spool.rows;
            (exists after: seq<Action> :: Uninterrupted(s, after) && NoControls(after) && Leaves(s, after))
            <==> rows != [] && Deliverable(rows[0]) && !HeadBlocks(rows)
  {
    var s := Step(Run(INIT, before), CrashSupervisor);
    var rows := s.sup.spool.rows;
    ReachableStep(Run(INIT, before), CrashSupervisor);
    if rows != [] && Deliverable(rows[0]) && !HeadBlocks(rows) {
      var after := RestartMoves(s);
      OldestGone(s);
      assert Uninterrupted(s, after) && NoControls(after) && Leaves(s, after);
    }
    forall after: seq<Action> | Uninterrupted(s, after) && NoControls(after) && Leaves(s, after)
      ensures rows != [] && Deliverable(rows[0]) && !HeadBlocks(rows)
    {
      var r :| r in rows && r !in Run(s, after).sup.spool.rows;
      if Delivered(s) {
        BlockedStays(s, after, r);
      }
      if HeadBlocks(rows) {
        JammedKeeps(s, after);
      }
    }
  }

  // Two frames of 300000 plain characters first, say: nothing ever leaves again.
  lemma TwoLargeFramesHangAgain(before: seq<Action>, after: seq<Action>)
    requires var s := Step(Run(INIT, before), CrashSupervisor); var rows := s.sup.spool.rows;
             && |rows| >= 2
             && Sender.RowSize(rows[0]) + Sender.RowSize(rows[1]) > Sender.MAX_INFLIGHT_BYTES
             && Uninterrupted(s, after) && NoControls(after)
    ensures !Leaves(Step(Run(INIT, before), CrashSupervisor), after)
  {
    RestartHelpsIff(before);
    var rows := Step(Run(INIT, before), CrashSupervisor).sup.spool.rows;
    if Deliverable(rows[0]) {
      TwoLargeFramesBlock(rows);
    }
  }

  lemma OldestGone(s: Sys)
    requires Reachable(s) && s.sup.spool.rows != []
    ensures s.sup.spool.rows[0] in s.sup.spool.rows && s.sup.spool.rows[0] !in s.sup.spool.rows[1..]
  {
    SpoolOk(s);
  }
}
