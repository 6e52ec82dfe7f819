// Progress of the durable-output protocol: wherever a run has got to, one reconnect,
// after a restart if the supervisor hangs, and answers in order deliver everything that
// was emitted before the first frame that cannot be sent.
module PipelineProgress {
  import opened Common
  import opened Ipc
  import Spool
  import Sender
  import SenderProgress
  import Recording
  import opened Pipeline
  import opened PipelineSafety

  lemma {:induction false} RunAppend(s: Sys, a: seq<Action>, b: seq<Action>)
    ensures Run(s, a + b) == Run(Run(s, a), b)
    decreases |a|
  {
    if a == [] {
      assert a + b == b;
    } else {
      assert (a + b)[1..] == a[1..] + b;
      RunAppend(Step(s, a[0]), a[1..], b);
    }
  }

  ghost predicate Reachable(s: Sys) {
    exists actions: seq<Action> :: s == Run(INIT, actions)
  }

  lemma ReachableRun(s: Sys, actions: seq<Action>)
    requires Reachable(s)
    ensures Reachable(Run(s, actions))
  {
    var before: seq<Action> :| s == Run(INIT, before);
    RunAppend(INIT, before, actions);
  }

  lemma ReachableStep(s: Sys, a: Action)
    requires Reachable(s)
    ensures Reachable(Step(s, a))
  {
    ReachableRun(s, [a]);
    RunOne(s, a);
  }

  lemma ReachableInv(s: Sys)
    requires Reachable(s)
    ensures SysInv(s)
  {
    var actions: seq<Action> :| s == Run(INIT, actions);
    InitInv();
    RunInv(INIT, actions);
  }

  lemma RunOne(s: Sys, a: Action)
    ensures Run(s, [a]) == Step(s, a)
  {
    assert [a][1..] == [];
  }

  function Attached(s: Sys): nat
    requires s.conns != []
  {
    |s.conns| - 1
  }

  // The attached connection carries exactly these messages, in one place at most.
  ghost predicate Carries(s: Sys, ipc: seq<Spool.Row>, ws: seq<Spool.Row>, down: seq<Recording.Reply>, up: seq<ToSupervisor>) {
    && !s.hung && s.conns != []
    && var c := s.conns[Attached(s)];
       c.open && c.ipc == ipc && c.ws == ws && c.down == down && c.up == up
  }

  ghost predicate Ready(s: Sys) {
    SenderProgress.AtHead(s.sup) && Carries(s, [], [], [], []) && Attached(s) !in s.world.held
  }

  // Row r left the head of the scan and is the only delivery in flight.
  ghost predicate Sent(sup: Sender.Sup, r: Spool.Row) {
    && sup.spool.rows != [] && sup.spool.rows[0] == r
    && sup.inflight == [Sender.Slot(Sender.RowId(r.ord), Sender.RowSize(r))] && sup.inflightBytes == Sender.RowSize(r)
    && sup.controls == [] && sup.drain == Sender.InRows(sup.spool.rows[1..])
  }

  // Nothing but the attached connection and the ledger changes.
  ghost predicate Same(s: Sys, t: Sys) {
    t.sup == s.sup && t.hung == s.hung && t.log == s.log && |t.conns| == |s.conns|
  }

  // The attached transport remembers the row.
  ghost predicate Tracks(s: Sys, r: Spool.Row) {
    && s.conns != []
    && var outstanding := s.conns[Attached(s)].outstanding;
       Ident(r.stream, r.num) in outstanding && outstanding[Ident(r.stream, r.num)] == r
  }

  // ---- Controls ------------------------------------------------------------------------

  lemma SendsControl(s: Sys)
    requires Ready(s) && s.sup.controls != []
    ensures var t := Step(Step(s, Drain), ControlAck(s.sup.controls[0].id));
            && Ready(t) && t.log == s.log && t.sup.spool == s.sup.spool && |t.sup.controls| == |s.sup.controls| - 1
  {
    SenderProgress.ControlGoes(s.sup);
  }

  // ---- One row -----------------------------------------------------------------------------

  lemma SendsRow(s: Sys)
    requires Ready(s) && s.sup.controls == [] && s.sup.spool.rows != [] && Deliverable(s.sup.spool.rows[0])
    ensures var t := Step(s, Drain); var r := s.sup.spool.rows[0];
            && Sent(t.sup, r) && Carries(t, [r], [], [], [])
            && t.log == s.log && t.sup.spool == s.sup.spool && t.world == s.world && |t.conns| == |s.conns|
  {
    SenderProgress.RowGoes(s.sup);
  }

  lemma ForwardsRow(s: Sys, r: Spool.Row, rest: seq<Spool.Row>)
    requires Carries(s, [r] + rest, [], [], [])
    ensures var t := Step(s, Forward(Attached(s)));
            Same(s, t) && t.world == s.world && Carries(t, rest, [r], [], []) && Tracks(t, r)
  {
    assert ([r] + rest)[1..] == rest && [] + [r] == [r];
  }

  // The row is accepted and it is new or a duplicate.
  ghost predicate Welcome(s: Sys, r: Spool.Row) {
    && Admissible(r.frame)
    && var f := IncomingOf(r, false, 0);
       var v := Recording.Classify(s.world.rows, f);
       f.stream == r.stream && (v.Duplicate? || (v.New? && v.row.stream == r.stream && v.row.num == r.num))
  }

  // The server reads the row: an acknowledgement goes out at once or after the commit.
  lemma ReadsRow(s: Sys, r: Spool.Row, rest: seq<Spool.Row>)
    requires Carries(s, rest, [r], [], []) && Tracks(s, r) && Attached(s) !in s.world.held && Welcome(s, r)
    ensures var t := Step(s, ServerRead(Attached(s), false, 0));
            && Same(s, t) && Tracks(t, r)
            && (if Attached(s) in t.world.held
                then Carries(t, rest, [], [], [])
                     && t.world.held[Attached(s)].row.stream == r.stream && t.world.held[Attached(s)].row.num == r.num
                else Carries(t, rest, [], [Recording.AckReply(r.stream, r.num)], []))
  {
    assert [r][1..] == [];
  }

  lemma CommitsRow(s: Sys, r: Spool.Row, rest: seq<Spool.Row>)
    requires Carries(s, rest, [], [], []) && Tracks(s, r) && Attached(s) in s.world.held
    requires var result := Recording.Act(s.world, Recording.CommitAction(Attached(s), false));
             result.1 == [Recording.AckReply(r.stream, r.num)] && Attached(s) !in result.0.held
    ensures var t := Step(s, ServerCommit(Attached(s), true));
            && Same(s, t) && Tracks(t, r) && Attached(s) !in t.world.held
            && Carries(t, rest, [], [Recording.AckReply(r.stream, r.num)], [])
  {
  }

  lemma AnswersRow(s: Sys, r: Spool.Row, rest: seq<Spool.Row>)
    requires Carries(s, rest, [], [Recording.AckReply(r.stream, r.num)], []) && Tracks(s, r)
    ensures var t := Step(s, TransportRead(Attached(s)));
            Same(s, t) && t.world == s.world && Carries(t, rest, [], [], [DeliveryAck(r.ord)])
  {
    var ack := Recording.AckReply(r.stream, r.num);
    assert [ack][1..] == [];
  }

  lemma RowLeaves(sup: Sender.Sup, r: Spool.Row)
    requires Spool.Inv(sup.spool) && Sent(sup, r)
    ensures var t := Sender.ApplyAck(sup, Sender.RowId(r.ord));
            SenderProgress.AtHead(t) && t.controls == [] && |t.spool.rows| == |sup.spool.rows| - 1
  {
    assert sup.inflight[0].id == Sender.RowId(r.ord);
    Sender.OldestRowAcks(Sender.Start(sup.spool));
    assert Spool.Find(sup.spool.rows, r.ord) == Some(r);
    assert Spool.WithoutFirst(sup.spool.rows, r.stream) == sup.spool.rows[1..];
  }

  lemma AcknowledgesRow(s: Sys, r: Spool.Row)
    requires Spool.Inv(s.sup.spool) && Sent(s.sup, r)
    requires Carries(s, [], [], [], [DeliveryAck(r.ord)]) && Attached(s) !in s.world.held
    ensures var t := Step(s, SupervisorRead(Attached(s)));
            Ready(t) && t.log == s.log && t.sup.controls == [] && |t.sup.spool.rows| == |s.sup.spool.rows| - 1
  {
    RowLeaves(s.sup, r);
    assert [DeliveryAck(r.ord)][1..] == [];
  }

  // ---- What the invariant adds ----------------------------------------------------------------

  lemma RowWelcome(s: Sys, r: Spool.Row, rest: seq<Spool.Row>)
    requires Reachable(s) && Carries(s, rest, [r], [], []) && Attached(s) !in s.world.held
    ensures Welcome(s, r)
  {
    ReachableInv(s);
    ReadAdmissible(s, Attached(s));
    ReadVerdict(s, Attached(s), false, 0);
  }

  lemma CommitAcknowledges(s: Sys, i: nat)
    requires Reachable(s) && i in s.world.held
    ensures var h := s.world.held[i]; var result := Recording.Act(s.world, Recording.CommitAction(i, false));
            result.1 == [Recording.AckReply(h.row.stream, h.row.num)] && i !in result.0.held
  {
    ReachableInv(s);
    CommitAnswer(s, i);
  }

  // ---- Everything ------------------------------------------------------------------------------

  // None of the actions is one of the supervisor.
  ghost predicate Outside(actions: seq<Action>) {
    forall a :: a in actions ==> !OfSupervisor(a) && !a.CrashSupervisor?
  }

  ghost predicate Served(s: Sys, t: Sys, r: Spool.Row, rest: seq<Spool.Row>) {
    && Same(s, t) && Tracks(t, r) && Attached(t) !in t.world.held
    && Carries(t, rest, [], [Recording.AckReply(r.stream, r.num)], [])
  }

  lemma ServesHeld(s: Sys, r: Spool.Row, rest: seq<Spool.Row>)
    requires Reachable(s) && Carries(s, rest, [], [], []) && Tracks(s, r) && Attached(s) in s.world.held
    requires s.world.held[Attached(s)].row.stream == r.stream && s.world.held[Attached(s)].row.num == r.num
    ensures Served(s, Step(s, ServerCommit(Attached(s), true)), r, rest)
  {
    CommitAcknowledges(s, Attached(s));
    CommitsRow(s, r, rest);
  }

  // The sent row reaches the server: read, and committed if it was new.
  lemma ServesRow(s: Sys, r: Spool.Row, rest: seq<Spool.Row>) returns (actions: seq<Action>)
    requires Reachable(s) && Carries(s, rest, [r], [], []) && Tracks(s, r) && Attached(s) !in s.world.held
    ensures Served(s, Run(s, actions), r, rest) && Outside(actions)
  {
    var read := ServerRead(Attached(s), false, 0);
    var t := Step(s, read);
    RowWelcome(s, r, rest);
    ReadsRow(s, r, rest);
    if Attached(s) in t.world.held {
      ReachableStep(s, read);
      ServesHeld(t, r, rest);
      actions := [read, ServerCommit(Attached(s), true)];
      RunTwo(s, read, ServerCommit(Attached(s), true));
    } else {
      actions := [read];
      RunOne(s, read);
    }
  }

  // The first row handed over is stored, and its acknowledgement is back.
  lemma RowArrives(s: Sys, r: Spool.Row, rest: seq<Spool.Row>) returns (actions: seq<Action>)
    requires Reachable(s) && Carries(s, [r] + rest, [], [], []) && Attached(s) !in s.world.held
    ensures Outside(actions)
    ensures var t := Run(s, actions);
            Same(s, t) && Carries(t, rest, [], [], [DeliveryAck(r.ord)]) && Attached(t) !in t.world.held
  {
    var forward := Forward(Attached(s));
    var t := Step(s, forward);
    ForwardsRow(s, r, rest);
    ReachableStep(s, forward);
    var serve := ServesRow(t, r, rest);
    var u := Run(t, serve);
    var answer := TransportRead(Attached(u));
    AnswersRow(u, r, rest);
    RunOne(s, forward);
    RunOne(u, answer);
    RunAppend(t, serve, [answer]);
    RunAppend(s, [forward], serve + [answer]);
    actions := [forward] + (serve + [answer]);
  }

  lemma FinishesRow(s: Sys, r: Spool.Row) returns (actions: seq<Action>)
    requires Reachable(s) && Sent(s.sup, r) && Carries(s, [r], [], [], []) && Attached(s) !in s.world.held
    ensures CrashSupervisor !in actions
    ensures var t := Run(s, actions);
            Ready(t) && t.log == s.log && t.sup.controls == [] && |t.sup.spool.rows| == |s.sup.spool.rows| - 1
  {
    assert [r] + [] == [r];
    var arrive := RowArrives(s, r, []);
    var t := Run(s, arrive);
    var read := SupervisorRead(Attached(t));
    SpoolOk(s);
    AcknowledgesRow(t, r);
    RunOne(t, read);
    RunAppend(s, arrive, [read]);
    actions := arrive + [read];
  }

  // The head row reaches the server and leaves the spool.
  lemma DeliversRow(s: Sys) returns (actions: seq<Action>)
    requires Reachable(s) && Ready(s) && s.sup.controls == [] && s.sup.spool.rows != []
    requires Deliverable(s.sup.spool.rows[0])
    ensures CrashSupervisor !in actions
    ensures var t := Run(s, actions);
            Ready(t) && t.log == s.log && t.sup.controls == [] && |t.sup.spool.rows| == |s.sup.spool.rows| - 1
  {
    SendsRow(s);
    RunOne(s, Drain);
    ReachableStep(s, Drain);
    var finish := FinishesRow(Step(s, Drain), s.sup.spool.rows[0]);
    actions := [Drain] + finish;
    RunAppend(s, [Drain], finish);
  }

  lemma SpoolOk(s: Sys)
    requires Reachable(s)
    ensures Spool.Inv(s.sup.spool)
  {
    ReachableInv(s);
  }

  // Nothing waits, or what waits first cannot be sent.
  ghost predicate Delivered(s: Sys) {
    s.sup.spool.rows == [] || !Deliverable(s.sup.spool.rows[0])
  }

  lemma {:induction false} DeliversAll(s: Sys) returns (actions: seq<Action>)
    requires Reachable(s) && Ready(s)
    ensures Run(s, actions).log == s.log && Delivered(Run(s, actions)) && CrashSupervisor !in actions
    decreases |s.sup.controls| + |s.sup.spool.rows|
  {
    if s.sup.controls != [] {
      SendsControl(s);
      var pair := [Drain, ControlAck(s.sup.controls[0].id)];
      RunTwo(s, pair[0], pair[1]);
      ReachableRun(s, pair);
      var rest := DeliversAll(Run(s, pair));
      RunAppend(s, pair, rest);
      actions := pair + rest;
    } else if s.sup.spool.rows != [] && Deliverable(s.sup.spool.rows[0]) {
      var first := DeliversRow(s);
      ReachableRun(s, first);
      var rest := DeliversAll(Run(s, first));
      RunAppend(s, first, rest);
      actions := first + rest;
    } else {
      actions := [];
    }
  }

  lemma RunTwo(s: Sys, a: Action, b: Action)
    ensures Run(s, [a, b]) == Step(Step(s, a), b)
  {
    assert [a, b] == [a] + [b];
    RunAppend(s, [a], [b]);
    RunOne(s, a);
    RunOne(Step(s, a), b);
  }

  lemma AttachesReady(s: Sys)
    requires Reachable(s) && !s.hung
    ensures Ready(Step(s, AttachNew)) && Step(s, AttachNew).log == s.log
  {
    ReachableInv(s);
    assert |s.conns| !in s.world.held;
  }

  // One reconnect and answers in order, after a restart of a supervisor that hangs.
  lemma Reconnects(s: Sys) returns (after: seq<Action>)
    requires Reachable(s)
    ensures Run(s, after).log == s.log && Delivered(Run(s, after))
    ensures CrashSupervisor in after ==> s.hung
  {
    if s.hung {
      var t := Step(s, CrashSupervisor);
      RunOne(s, CrashSupervisor);
      ReachableStep(s, CrashSupervisor);
      var rest := Reattaches(t);
      RunAppend(s, [CrashSupervisor], rest);
      after := [CrashSupervisor] + rest;
    } else {
      after := Reattaches(s);
    }
  }

  lemma Reattaches(s: Sys) returns (after: seq<Action>)
    requires Reachable(s) && !s.hung
    ensures Run(s, after).log == s.log && Delivered(Run(s, after)) && CrashSupervisor !in after
  {
    AttachesReady(s);
    RunOne(s, AttachNew);
    ReachableStep(s, AttachNew);
    var rest := DeliversAll(Step(s, AttachNew));
    RunAppend(s, [AttachNew], rest);
    after := [AttachNew] + rest;
  }

  // ---- What is stored then --------------------------------------------------------------------

  // The server holds the first n emitted frames, and the spool all others.
  ghost predicate StoredUpTo(s: Sys, n: nat)
    requires n <= |s.log|
  {
    && (forall r :: r in s.sup.spool.rows ==> r.ord > n)
    && forall k :: Recording.Frontier(s.world.rows, k) == |Emitted(s.log[..n], k)| && StoredPrefix(s, k)
  }

  // The server holds every frame that was emitted, and the spool none.
  ghost predicate AllStored(s: Sys) {
    s.sup.spool.rows == [] && StoredUpTo(s, |s.log|)
  }

  // Everything that can be sent has left the spool.
  lemma NothingClearWaits(s: Sys, r: Spool.Row)
    requires SysInv(s) && Delivered(s) && r in s.sup.spool.rows
    ensures r.ord > Clear(s.log)
  {
    var rows := s.sup.spool.rows;
    assert rows[0] in rows;
    assert Genuine(s.log, rows[0]) && Placed(s.log, rows[0]);
    ClearRow(s.log, rows[0]);
    var i :| 0 <= i < |rows| && rows[i] == r;
    assert rows[0].ord <= rows[i].ord;
  }

  lemma NumberBehind(log: seq<Frame>, r: Spool.Row, n: nat)
    requires Genuine(log, r) && Placed(log, r) && n < r.ord
    ensures |Emitted(log[..n], r.stream)| < r.num
  {
    EmittedSlices(log, n, r.ord - 1, r.stream);
    EmittedLast(log, r.ord - 1);
  }

  // A stream is acknowledged as far as none of its rows waits.
  lemma AcknowledgedUpTo(s: Sys, n: nat, k: Stream)
    requires SpoolInv(s) && n <= |s.log| && forall r :: r in s.sup.spool.rows ==> r.ord > n
    ensures Lookup(s.sup.spool.acked, k) >= |Emitted(s.log[..n], k)|
  {
    var m := |Emitted(s.log[..n], k)|;
    if Lookup(s.sup.spool.acked, k) < m {
      EmittedPrefix(s.log, n, k);
      var r := PendingNum(s.sup.spool, k, m);
      NumberBehind(s.log, r, n);
    }
  }

  // The server holds all that can be sent as soon as none of it waits.
  lemma ClearStored(s: Sys)
    requires Reachable(s) && forall r :: r in s.sup.spool.rows ==> r.ord > Clear(s.log)
    ensures StoredUpTo(s, Clear(s.log))
  {
    ReachableInv(s);
    forall k
      ensures Recording.Frontier(s.world.rows, k) == |Emitted(s.log[..Clear(s.log)], k)| && StoredPrefix(s, k)
    {
      AcknowledgedUpTo(s, Clear(s.log), k);
      StoredIsClear(s, k);
      ServerHoldsPrefix(s, k);
    }
  }

  lemma DeliveredStores(s: Sys)
    requires Reachable(s) && Delivered(s)
    ensures StoredUpTo(s, Clear(s.log))
  {
    forall r | r in s.sup.spool.rows
      ensures r.ord > Clear(s.log)
    {
      ReachableInv(s);
      NothingClearWaits(s, r);
    }
    ClearStored(s);
  }

  // Whatever happened before: some continuation, one reconnect and answers in order,
  // stores all that was emitted before the first frame that cannot be sent. A supervisor
  // that hangs in its endless round has to be restarted for it, and only then.
  lemma ReconnectDelivers(before: seq<Action>)
    ensures exists after: seq<Action> ::
              var s := Run(INIT, before); var t := Run(s, after);
              t.log == s.log && StoredUpTo(t, Clear(t.log)) && (CrashSupervisor in after ==> s.hung)
  {
    var s := Run(INIT, before);
    var after := Reconnects(s);
    ReachableRun(s, after);
    DeliveredStores(Run(s, after));
  }

  // So it stores everything exactly when every emitted frame can be sent.
  lemma ReconnectDeliversEverything(before: seq<Action>)
    ensures AllCanBeSent(Run(INIT, before).log)
       <==> exists after: seq<Action> ::
              var s := Run(INIT, before); var t := Run(s, after);
              t.log == s.log && AllStored(t)
  {
    var s := Run(INIT, before);
    AllClear(s.log);
    if AllCanBeSent(s.log) {
      var after := StoresEverything(s);
    }
    forall after: seq<Action> | Run(s, after).log == s.log && AllStored(Run(s, after))
      ensures Clear(s.log) == |s.log|
    {
      ReachableRun(s, after);
      AllStoredIsClear(Run(s, after));
    }
  }

  lemma StoresEverything(s: Sys) returns (after: seq<Action>)
    requires Reachable(s) && Clear(s.log) == |s.log|
    ensures Run(s, after).log == s.log && AllStored(Run(s, after))
  {
    after := Reconnects(s);
    ReachableRun(s, after);
    DeliveredStores(Run(s, after));
    EmptyBehindAll(Run(s, after));
  }

  lemma EmptyBehindAll(s: Sys)
    requires Reachable(s) && StoredUpTo(s, |s.log|)
    ensures s.sup.spool.rows == []
  {
    if s.sup.spool.rows != [] {
      OldestInLog(s);
    }
  }

  lemma OldestInLog(s: Sys)
    requires Reachable(s) && s.sup.spool.rows != []
    ensures s.sup.spool.rows[0] in s.sup.spool.rows && s.sup.spool.rows[0].ord <= |s.log|
  {
    ReachableInv(s);
  }

  lemma AllStoredIsClear(s: Sys)
    requires Reachable(s) && AllStored(s)
    ensures Clear(s.log) == |s.log|
  {
    ReachableInv(s);
    var n := Clear(s.log);
    if n < |s.log| {
      var r := BlockedWait(s, n);
    }
  }

  // ---- What a longer run keeps ------------------------------------------------------------------

  ghost predicate Grows(s: Sys, t: Sys) {
    && s.log <= t.log && s.sup.spool.lastOrd <= t.sup.spool.lastOrd
    && forall r :: r in t.sup.spool.rows ==> r in s.sup.spool.rows || r.ord > s.sup.spool.lastOrd
  }

  lemma StepGrows(s: Sys, a: Action)
    requires SpoolInv(s)
    ensures Grows(s, Step(s, a))
  {
    match a
    case SupervisorRead(i) => ReadGrows(s, i);
    case Drain => DrainKeepsRows(s);
    case _ =>
  }

  lemma ReadGrows(s: Sys, i: nat)
    requires Spool.Inv(s.sup.spool)
    ensures Grows(s, Step(s, SupervisorRead(i)))
  {
    if i < |s.conns| && s.conns[i].up != [] {
      match s.conns[i].up[0]
      case DeliveryAck(ord) =>
        if Spool.AcksOrd(s.sup.spool, ord) {
          Sender.AckOrdRemoves(s.sup.spool, ord);
        }
      case FenceMessage(k) => Spool.WithoutMembers(s.sup.spool.rows, k);
    }
  }

  lemma {:induction false} RunGrows(s: Sys, after: seq<Action>)
    requires Reachable(s)
    ensures Grows(s, Run(s, after))
    decreases |after|
  {
    if after != [] {
      ReachableInv(s);
      StepGrows(s, after[0]);
      ReachableStep(s, after[0]);
      RunGrows(Step(s, after[0]), after[1..]);
    }
  }

  // A frame that cannot be sent cannot be sent in a longer run either.
  lemma StillBlocked(log: seq<Frame>, more: seq<Frame>)
    requires log <= more && Clear(log) < |log|
    ensures Clear(more) <= Clear(log)
  {
    ClearStops(log);
    SameBefore(log, more, Clear(log));
    ClearMeans(more);
  }

  predicate Large(f: Frame) {
    f.data == seq(1048570, _ => 'a') || f.data == seq(600000, _ => '"')
  }

  lemma LargeCannotBeSent(log: seq<Frame>, f: Frame)
    requires Large(f)
    ensures Admissible(f) && !CanBeSent(log + [f], |log|)
  {
    var more := log + [f];
    var k := f.WireStream();
    AdmissibleNotDeliverable(Spool.Row(|more|, k, |Emitted(more, k)|, f, 0));
    assert more[..|log| + 1] == more;
  }

  lemma SameBefore(log: seq<Frame>, more: seq<Frame>, n: nat)
    requires log <= more && n < |log|
    ensures CanBeSent(log, n) <==> CanBeSent(more, n)
  {
    assert more[..n + 1] == log[..n + 1];
  }

  // One emitted frame with 1048570 plain characters, or with 600000 quotes, is enough: it
  // is small enough for the server, and neither it nor anything behind it is ever stored.
  lemma LargeFrameBlocks(before: seq<Action>, f: Frame, bytes: nat, after: seq<Action>, n: nat)
    requires !Run(INIT, before).hung && FromSession(f) && Large(f)
    requires var s := Run(INIT, before); |s.log| <= n < |Run(Step(s, Emit(f, bytes)), after).log|
    ensures var t := Run(Step(Run(INIT, before), Emit(f, bytes)), after); var k := t.log[n].WireStream();
            && Admissible(f)
            && Recording.Frontier(t.world.rows, k) < |Emitted(t.log[..n + 1], k)|
  {
    var s := Run(INIT, before);
    var u := Step(s, Emit(f, bytes));
    var m := |s.log|;
    assert u.log == s.log + [f];
    LargeCannotBeSent(s.log, f);
    ReachableStep(s, Emit(f, bytes));
    RunGrows(u, after);
    SameBefore(u.log, Run(u, after).log, m);
    ReachableRun(u, after);
    BlockedBehind(Run(u, after), m, n);
  }

  lemma BlockedBehind(s: Sys, m: nat, n: nat)
    requires Reachable(s) && m <= n < |s.log| && !CanBeSent(s.log, m)
    ensures var k := s.log[n].WireStream(); Recording.Frontier(s.world.rows, k) < |Emitted(s.log[..n + 1], k)|
  {
    var actions: seq<Action> :| s == Run(INIT, actions);
    NothingPastBlocked(actions, n);
  }

  // A supervisor that hangs stays as it is, whatever the others do, until it is restarted.
  lemma {:induction false} HangsOn(s: Sys, after: seq<Action>)
    requires s.hung && CrashSupervisor !in after
    ensures var t := Run(s, after); t.hung && t.sup == s.sup && t.log == s.log
    decreases |after|
  {
    if after != [] {
      HangsOn(Step(s, after[0]), after[1..]);
    }
  }

  // No other continuation does without the restart: it is needed exactly when the
  // supervisor hangs and something that can be sent waits.
  lemma RestartNeededIff(before: seq<Action>)
    ensures var s := Run(INIT, before);
            (exists after: seq<Action> ::
               CrashSupervisor !in after
               && var t := Run(s, after); t.log == s.log && StoredUpTo(t, Clear(t.log)))
            <==> !s.hung || forall r :: r in s.sup.spool.rows ==> r.ord > Clear(s.log)
  {
    var s := Run(INIT, before);
    if !s.hung {
      var after := Reattaches(s);
      ReachableRun(s, after);
      DeliveredStores(Run(s, after));
    } else if forall r :: r in s.sup.spool.rows ==> r.ord > Clear(s.log) {
      ClearStored(s);
      assert Run(s, []) == s;
    }
    forall after: seq<Action> | s.hung && CrashSupervisor !in after && Run(s, after).log == s.log
                                && StoredUpTo(Run(s, after), Clear(Run(s, after).log))
      ensures forall r :: r in s.sup.spool.rows ==> r.ord > Clear(s.log)
    {
      HangsOn(s, after);
    }
  }
}
