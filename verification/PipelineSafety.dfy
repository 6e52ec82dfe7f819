// Safety of the durable-output protocol over every run.
module PipelineSafety {
  import opened Common
  import opened Ipc
  import Spool
  import Sender
  import Recording
  import opened Pipeline

  // ---- Rows of one stream ----------------------------------------------------------

  // Within a stream, number order is insertion order.
  lemma NumOrder(spool: Spool.State, a: Spool.Row, b: Spool.Row)
    requires Spool.Inv(spool)
    requires a in spool.rows && b in spool.rows && a.stream == b.stream
    ensures a.num < b.num <==> a.ord < b.ord
    ensures a.ord == b.ord <==> a == b
    ensures a.num == b.num <==> a == b
  {
    var lane := Spool.Lane(spool.rows, a.stream);
    Spool.LaneMembers(spool.rows, a.stream);
    Spool.LaneOrdered(spool.rows, a.stream);
    assert Spool.Contiguous(lane, Lookup(spool.acked, a.stream));
    assert a in lane && b in lane;
    var i :| 0 <= i < |lane| && lane[i] == a;
    var j :| 0 <= j < |lane| && lane[j] == b;
  }

  lemma OrdUnique(spool: Spool.State, a: Spool.Row, b: Spool.Row)
    requires Spool.Inv(spool)
    requires a in spool.rows && b in spool.rows && a.ord == b.ord
    ensures a == b
  {
    var i :| 0 <= i < |spool.rows| && spool.rows[i] == a;
    var j :| 0 <= j < |spool.rows| && spool.rows[j] == b;
  }

  // The pending numbers of a stream are acked+1 .. acked+|lane|, all there.
  lemma PendingNums(spool: Spool.State, k: Stream)
    requires Spool.Inv(spool)
    ensures var acked := Lookup(spool.acked, k);
            forall r :: r in spool.rows && r.stream == k ==>
              acked < r.num <= acked + |Spool.Lane(spool.rows, k)|
  {
    var acked := Lookup(spool.acked, k);
    var lane := Spool.Lane(spool.rows, k);
    Spool.LaneMembers(spool.rows, k);
    assert Spool.Contiguous(lane, acked);
    forall r | r in spool.rows && r.stream == k
      ensures acked < r.num <= acked + |lane|
    {
      assert r in lane;
      var i :| 0 <= i < |lane| && lane[i] == r;
    }
  }

  lemma PendingNum(spool: Spool.State, k: Stream, n: nat) returns (r: Spool.Row)
    requires Spool.Inv(spool)
    requires Lookup(spool.acked, k) < n <= Lookup(spool.acked, k) + |Spool.Lane(spool.rows, k)|
    ensures r in spool.rows && r.stream == k && r.num == n
  {
    var lane := Spool.Lane(spool.rows, k);
    Spool.LaneMembers(spool.rows, k);
    assert Spool.Contiguous(lane, Lookup(spool.acked, k));
    r := lane[n - Lookup(spool.acked, k) - 1];
    assert r in lane;
  }

  // ---- Flows -------------------------------------------------------------------------

  lemma {:induction false} NumsConcat(a: seq<Spool.Row>, b: seq<Spool.Row>, k: Stream)
    ensures Nums(a + b, k) == Nums(a, k) + Nums(b, k)
  {
    if a == [] {
      assert a + b == b;
    } else {
      assert (a + b)[1..] == a[1..] + b;
      NumsConcat(a[1..], b, k);
    }
  }

  lemma NumsTake(a: seq<Spool.Row>, n: nat, k: Stream)
    ensures Nums(Take(a, n), k) <= Nums(a, k)
  {
    if n <= |a| {
      assert a == a[..n] + a[n..];
      NumsConcat(a[..n], a[n..], k);
    }
  }

  // ---- The log -------------------------------------------------------------------------

  lemma {:induction false} EmittedPrefix(log: seq<Frame>, n: nat, k: Stream)
    requires n <= |log|
    ensures Emitted(log[..n], k) <= Emitted(log, k)
  {
    if n == |log| {
      assert log[..n] == log;
    } else {
      var front := log[..|log| - 1];
      EmittedPrefix(front, n, k);
      assert front[..n] == log[..n];
    }
  }

  lemma EmittedSlices(log: seq<Frame>, m: nat, n: nat, k: Stream)
    requires m <= n <= |log|
    ensures Emitted(log[..m], k) <= Emitted(log[..n], k)
  {
    EmittedPrefix(log[..n], m, k);
    assert log[..n][..m] == log[..m];
  }

  // The n-th frame of all is the last one of its stream up to there.
  lemma EmittedLast(log: seq<Frame>, n: nat)
    requires n < |log|
    ensures var k := log[n].WireStream(); Emitted(log[..n + 1], k) == Emitted(log[..n], k) + [log[n]]
  {
    assert log[..n + 1][..n] == log[..n];
  }

  // Two frames of a stream never have the same number.
  lemma SameCount(log: seq<Frame>, m: nat, n: nat, k: Stream)
    requires m < |log| && n < |log| && log[m].WireStream() == k && log[n].WireStream() == k
    requires |Emitted(log[..m + 1], k)| == |Emitted(log[..n + 1], k)|
    ensures m == n
  {
    EmittedLast(log, m);
    EmittedLast(log, n);
    if m < n {
      EmittedSlices(log, m + 1, n, k);
    } else if n < m {
      EmittedSlices(log, n + 1, m, k);
    }
  }

  lemma {:induction false} ClearBelow(log: seq<Frame>, n: nat)
    requires n < Clear(log)
    ensures CanBeSent(log, n)
  {
    if n == |log| - 1 {
      assert log[..n + 1] == log;
    } else {
      var front := log[..|log| - 1];
      assert n < Clear(front);
      ClearBelow(front, n);
      assert front[..n + 1] == log[..n + 1];
    }
  }

  lemma {:induction false} ClearStops(log: seq<Frame>)
    requires Clear(log) < |log|
    ensures !CanBeSent(log, Clear(log))
  {
    var n := Clear(log);
    if n == |log| - 1 {
      assert log[..n + 1] == log;
    } else {
      var front := log[..|log| - 1];
      assert n == Clear(front);
      ClearStops(front);
      assert front[..n + 1] == log[..n + 1];
    }
  }

  // Up to `Clear` every frame can be sent, and the one there cannot.
  lemma ClearMeans(log: seq<Frame>)
    ensures forall n :: 0 <= n < Clear(log) ==> CanBeSent(log, n)
    ensures Clear(log) < |log| ==> !CanBeSent(log, Clear(log))
  {
    forall n: nat | n < Clear(log)
      ensures CanBeSent(log, n)
    {
      ClearBelow(log, n);
    }
    if Clear(log) < |log| {
      ClearStops(log);
    }
  }

  lemma AllClear(log: seq<Frame>)
    ensures AllCanBeSent(log) <==> Clear(log) == |log|
  {
    ClearMeans(log);
  }

  lemma ClearAppend(log: seq<Frame>, f: Frame)
    ensures Clear(log) <= Clear(log + [f])
    ensures forall k :: |Emitted(log[..Clear(log)], k)| <= |Emitted((log + [f])[..Clear(log + [f])], k)|
  {
    var more := log + [f];
    assert more[..|log|] == log;
    forall k
      ensures |Emitted(log[..Clear(log)], k)| <= |Emitted(more[..Clear(more)], k)|
    {
      EmittedSlices(more, Clear(log), Clear(more), k);
      assert more[..Clear(log)] == log[..Clear(log)];
    }
  }

  lemma RowFits(log: seq<Frame>, r: Spool.Row)
    requires Genuine(log, r) && Placed(log, r)
    ensures Deliverable(r) <==> CanBeSent(log, r.ord - 1)
  {
    var front := log[..r.ord];
    assert front[|front| - 1] == r.frame;
    assert log[..(r.ord - 1) + 1] == front;
  }

  // A genuine row up to there is one the channel takes, and the server too; the next one
  // is not.
  lemma ClearRow(log: seq<Frame>, r: Spool.Row)
    requires Genuine(log, r) && Placed(log, r)
    ensures r.ord <= Clear(log) ==> Deliverable(r) && Admissible(r.frame)
    ensures r.ord == Clear(log) + 1 ==> !Deliverable(r)
  {
    RowFits(log, r);
    ClearMeans(log);
    if r.ord <= Clear(log) {
      assert CanBeSent(log, r.ord - 1);
      DeliverableIsAdmissible(r);
    }
  }

  // ---- Later states ---------------------------------------------------------------------

  // What every step preserves about what other parts of the system rely on.
  ghost predicate Later(s: Sys, t: Sys) {
    && s.log <= t.log
    && Clear(s.log) <= Clear(t.log)
    && (forall k :: Emitted(s.log, k) <= Emitted(t.log, k))
    && (forall k :: |Emitted(s.log[..Clear(s.log)], k)| <= |Emitted(t.log[..Clear(t.log)], k)|)
    && s.sup.spool.lastOrd <= t.sup.spool.lastOrd
    && (forall r :: r in t.sup.spool.rows ==> r in s.sup.spool.rows || r.ord > s.sup.spool.lastOrd)
    && (forall k :: Recording.Frontier(s.world.rows, k) <= Recording.Frontier(t.world.rows, k))
  }

  lemma RowLater(s: Sys, t: Sys, r: Spool.Row)
    requires Later(s, t) && RowOk(s, r)
    ensures RowOk(t, r)
  {
    assert Emitted(s.log, r.stream) <= Emitted(t.log, r.stream);
    PlacedLater(s.log, t.log, r);
  }

  lemma PlacedLater(log: seq<Frame>, more: seq<Frame>, r: Spool.Row)
    requires log <= more && Placed(log, r)
    ensures Placed(more, r)
  {
    assert log[..r.ord] == more[..r.ord];
  }

  lemma ConnLater(s: Sys, t: Sys, c: Conn)
    requires Later(s, t) && ConnOk(s, c)
    ensures ConnOk(t, c)
  {
    forall r | RowOk(s, r)
      ensures RowOk(t, r)
    {
      RowLater(s, t, r);
    }
    forall m | m in c.up
      ensures MessageOk(t, m)
    {
      assert MessageOk(s, m);
    }
    forall reply | reply in c.down
      ensures ReplyOk(t, reply)
    {
      assert ReplyOk(s, reply);
    }
  }

  lemma ConnsLater(s: Sys, t: Sys)
    requires Later(s, t) && ConnsOk(s, s.conns)
    ensures ConnsOk(t, s.conns)
  {
    forall i | 0 <= i < |s.conns|
      ensures ConnOk(t, s.conns[i])
    {
      ConnLater(s, t, s.conns[i]);
    }
  }

  lemma StoredLater(s: Sys, t: Sys, r: Recording.Stored)
    requires Later(s, t) && GenuineStored(s.log, r)
    ensures GenuineStored(t.log, r)
  {
    assert Emitted(s.log, r.stream) <= Emitted(t.log, r.stream);
  }

  // A step of the supervisor alone leaves the connections and the server as they were.
  lemma SupervisorOnly(s: Sys, t: Sys)
    requires SysInv(s) && Later(s, t)
    requires t.conns == s.conns && t.world == s.world && t.sent == s.sent
    requires SpoolInv(t) && SentInv(t)
    requires forall k :: Lookup(t.sup.spool.acked, k) <= Recording.Frontier(t.world.rows, k)
    requires t.sup.drain.Detached? || !s.sup.drain.Detached?
    ensures SysInv(t)
  {
    ConnsLater(s, t);
    StoredRowsLater(s, t);
    SupervisorFlows(s, t);
  }

  lemma SupervisorFlows(s: Sys, t: Sys)
    requires FlowInv(s)
    requires t.conns == s.conns && t.world == s.world && t.sent == s.sent
    requires t.sup.drain.Detached? || !s.sup.drain.Detached?
    ensures FlowInv(t)
  {
    forall i, k | 0 <= i < |t.conns|
      ensures Flow(t, i, k) == Flow(s, i, k)
    {}
  }

  // ---- Emitting ---------------------------------------------------------------------------

  lemma EmittedAppend(log: seq<Frame>, f: Frame)
    ensures forall k :: Emitted(log + [f], k) == Emitted(log, k) + (if f.WireStream() == k then [f] else [])
  {
    assert (log + [f])[..|log|] == log;
  }

  lemma EmitLanes(s: Sys, f: Frame, bytes: nat)
    requires SpoolInv(s) && FromSession(f)
    ensures var t := Act(s, Emit(f, bytes)); var rows := t.sup.spool.rows;
            && rows == s.sup.spool.rows + [rows[|s.sup.spool.rows|]]
            && (forall k :: Lookup(t.sup.spool.acked, k) + |Spool.Lane(rows, k)| == |Emitted(t.log, k)|)
            && rows[|s.sup.spool.rows|].num == |Emitted(t.log, f.WireStream())|
            && Genuine(t.log, rows[|s.sup.spool.rows|])
            && Placed(t.log, rows[|s.sup.spool.rows|])
            && t.sup.spool.lastOrd == |t.log|
  {
    var t := Act(s, Emit(f, bytes));
    var spool := s.sup.spool;
    var row := t.sup.spool.rows[|spool.rows|];
    EmittedAppend(s.log, f);
    assert f.Emitted() == f && f.Identity() == f.WireStream();
    forall k
      ensures Lookup(t.sup.spool.acked, k) + |Spool.Lane(t.sup.spool.rows, k)| == |Emitted(t.log, k)|
    {
      Spool.LaneConcat(spool.rows, [row], k);
    }
    assert t.log[..row.ord] == t.log;
  }

  lemma EmitSpoolInv(s: Sys, f: Frame, bytes: nat)
    requires SpoolInv(s) && SentInv(s) && FromSession(f)
    ensures SpoolInv(Act(s, Emit(f, bytes))) && SentInv(Act(s, Emit(f, bytes)))
    ensures Later(s, Act(s, Emit(f, bytes)))
  {
    var t := Act(s, Emit(f, bytes));
    EmitLanes(s, f, bytes);
    Sender.EmitOutputInv(s.sup, f, bytes);
    Sender.EmitClean(s.sup, f, bytes);
    EmittedGrows(s.log, f);
    ClearAppend(s.log, f);
    EmitRows(s, f, bytes);
  }

  lemma EmitRows(s: Sys, f: Frame, bytes: nat)
    requires SpoolInv(s) && SentInv(s) && FromSession(f)
    ensures var t := Act(s, Emit(f, bytes));
            forall r :: r in t.sup.spool.rows ==>
              && Genuine(t.log, r) && Placed(t.log, r)
              && (r.num <= Lookup(t.sent, r.stream) <==> r.ord <= t.sup.hiRow)
  {
    var t := Act(s, Emit(f, bytes));
    EmitLanes(s, f, bytes);
    EmittedAppend(s.log, f);
    var row := t.sup.spool.rows[|s.sup.spool.rows|];
    assert row.num > Lookup(s.sent, row.stream);
    forall r | r in t.sup.spool.rows
      ensures Genuine(t.log, r) && Placed(t.log, r)
      ensures r.num <= Lookup(t.sent, r.stream) <==> r.ord <= t.sup.hiRow
    {
      if r in s.sup.spool.rows {
        assert Genuine(s.log, r) && Placed(s.log, r);
        PlacedLater(s.log, t.log, r);
        assert Emitted(s.log, r.stream) <= Emitted(t.log, r.stream);
      } else {
        assert r == row;
      }
    }
  }

  lemma EmittedGrows(log: seq<Frame>, f: Frame)
    ensures forall k :: Emitted(log, k) <= Emitted(log + [f], k)
  {
    EmittedAppend(log, f);
  }

  lemma EmitInv(s: Sys, f: Frame, bytes: nat)
    requires SysInv(s) && FromSession(f)
    ensures SysInv(Act(s, Emit(f, bytes)))
  {
    EmitSpoolInv(s, f, bytes);
    SupervisorOnly(s, Act(s, Emit(f, bytes)));
  }

  lemma StoredRowsLater(s: Sys, t: Sys)
    requires Later(s, t)
    requires forall r :: r in s.world.rows ==> GenuineStored(s.log, r)
    requires forall c :: c in s.world.held ==> GenuineStored(s.log, s.world.held[c].row)
    ensures forall r :: r in s.world.rows ==> GenuineStored(t.log, r)
    ensures forall c :: c in s.world.held ==> GenuineStored(t.log, s.world.held[c].row)
  {
    forall r | r in s.world.rows
      ensures GenuineStored(t.log, r)
    {
      StoredLater(s, t, r);
    }
    forall c | c in s.world.held
      ensures GenuineStored(t.log, s.world.held[c].row)
    {
      StoredLater(s, t, s.world.held[c].row);
    }
  }

  // Steps that leave everything but the supervisor's window state alone.
  lemma WindowStep(s: Sys, sup: Sender.Sup, hung: bool)
    requires SysInv(s)
    requires Sender.SupInv(sup) && Sender.NoGhosts(sup)
    requires sup.spool == s.sup.spool && sup.hiRow == s.sup.hiRow
    requires sup.drain.Detached? || !s.sup.drain.Detached?
    ensures SysInv(s.(sup := sup, hung := hung))
  {
    SupervisorOnly(s, s.(sup := sup, hung := hung));
  }

  lemma WindowOnly(s: Sys, sup: Sender.Sup)
    requires SysInv(s)
    requires Sender.SupInv(sup) && Sender.NoGhosts(sup)
    requires sup.spool == s.sup.spool && sup.hiRow == s.sup.hiRow
    requires sup.drain.Detached? || !s.sup.drain.Detached?
    ensures SysInv(s.(sup := sup))
  {
    WindowStep(s, sup, s.hung);
    assert s.(sup := sup) == s.(sup := sup, hung := s.hung);
  }

  // ---- Attaching and restarting -------------------------------------------------------------

  lemma SentAfresh(s: Sys, t: Sys)
    requires SysInv(s)
    requires t.sup.spool == s.sup.spool && t.sup.hiRow == 0 && t.sent == s.sup.spool.acked && t.log == s.log
    ensures SentInv(t)
  {
    forall r | r in t.sup.spool.rows
      ensures r.num > Lookup(t.sent, r.stream) && r.ord > 0
    {
      PendingNums(t.sup.spool, r.stream);
      var i :| 0 <= i < |t.sup.spool.rows| && t.sup.spool.rows[i] == r;
    }
  }

  lemma AttachInv(s: Sys)
    requires SysInv(s)
    ensures SysInv(Act(s, AttachNew))
  {
    var t := Act(s, AttachNew);
    Sender.AttachInv(s.sup);
    SentAfresh(s, t);
    assert Later(s, t);
    ConnsLater(s, t);
    StoredRowsLater(s, t);
    NewConnOk(t, s.conns);
    AttachFlows(s, t);
  }

  lemma NewConnOk(t: Sys, conns: seq<Conn>)
    requires ConnsOk(t, conns)
    ensures ConnsOk(t, conns + [NEW_CONN])
  {
    forall i | 0 <= i < |conns + [NEW_CONN]|
      ensures ConnOk(t, (conns + [NEW_CONN])[i])
    {
      if i < |conns| {
        assert ConnOk(t, conns[i]);
      }
    }
  }

  lemma AttachFlows(s: Sys, t: Sys)
    requires FlowInv(s) && forall i :: i in s.world.held ==> i < |s.conns|
    requires t.world == s.world && t.conns == s.conns + [NEW_CONN]
    requires t.sent == s.sup.spool.acked
    requires forall k :: Lookup(s.sup.spool.acked, k) <= Recording.Frontier(s.world.rows, k)
    ensures FlowInv(t)
  {
    forall i, k | 0 <= i < |t.conns|
      ensures Flow(t, i, k) == if i < |s.conns| then Flow(s, i, k) else []
    {
      if i < |s.conns| {
        assert t.conns[i] == s.conns[i];
      } else {
        assert i !in s.world.held;
      }
    }
  }

  lemma CrashInv(s: Sys)
    requires SysInv(s)
    ensures SysInv(Act(s, CrashSupervisor))
  {
    var t := Act(s, CrashSupervisor);
    Sender.StartInv(s.sup.spool);
    SentAfresh(s, t);
    ConnsLater(s, t);
    StoredRowsLater(s, t);
    SameFlows(s, t);
  }

  // With connections and server unchanged, flows stay chained.
  lemma SameFlows(s: Sys, t: Sys)
    requires FlowInv(s) && t.conns == s.conns && t.world == s.world && t.sup.drain.Detached?
    ensures FlowInv(t)
  {
    forall i, k | 0 <= i < |t.conns|
      ensures Chain(Flow(t, i, k), Recording.Frontier(t.world.rows, k))
    {
      assert Flow(t, i, k) == Flow(s, i, k);
    }
  }

  // ---- Handing a row over ----------------------------------------------------------------------

  // Only the row just taken lies between the old and the new mark.
  lemma OneMarked(s: Sys, r: Spool.Row, p: Spool.Row)
    requires SpoolInv(s) && Sender.Running(s.sup) && Sender.Taken(Sender.Resume(s.sup)) == Some(r)
    requires p in s.sup.spool.rows
    ensures r in s.sup.spool.rows
    ensures s.sup.hiRow < r.ord
    ensures p.ord <= r.ord <==> p.ord <= s.sup.hiRow || p == r
  {
    var rows := s.sup.spool.rows;
    Sender.ResumeEffect(s.sup);
    Sender.ResumeDelivers(s.sup);
    var next := Sender.Resume(s.sup).next;
    Sender.SlotsAppend(s.sup.inflight, Sender.Slot(Sender.RowId(r.ord), Sender.RowSize(r)));
    var i :| 0 <= i < |rows| && rows[i] == p;
    var j :| 0 <= j < |rows| && rows[j] == r;
    assert Sender.Marked(next) && next.spool == s.sup.spool;
    assert Sender.InFlight(next.inflight, Sender.RowId(rows[i].ord)) <==> p.ord <= next.hiRow;
    assert Sender.InFlight(s.sup.inflight, Sender.RowId(rows[i].ord)) <==> p.ord <= s.sup.hiRow;
    assert Sender.InFlight(s.sup.inflight, Sender.RowId(rows[j].ord)) <==> r.ord <= s.sup.hiRow;
    if p.ord == r.ord {
      OrdUnique(s.sup.spool, p, r);
    }
  }

  // The row the loop takes carries the next number of its stream.
  lemma SentIsNext(s: Sys, r: Spool.Row)
    requires SpoolInv(s) && SentInv(s)
    requires Sender.Running(s.sup) && Sender.Taken(Sender.Resume(s.sup)) == Some(r)
    ensures r in s.sup.spool.rows && r.num == Lookup(s.sent, r.stream) + 1
  {
    var spool := s.sup.spool;
    Sender.ResumeDelivers(s.sup);
    OneMarked(s, r, r);
    PendingNums(spool, r.stream);
    var n := Lookup(s.sent, r.stream) + 1;
    assert r.num >= n;
    var p := PendingNum(spool, r.stream, n);
    OneMarked(s, r, p);
    NumOrder(spool, p, r);
  }

  // What was stored was emitted before the first frame that cannot be sent.
  lemma StoredIsClear(s: Sys, k: Stream)
    requires ServerInv(s)
    ensures Lookup(s.sup.spool.acked, k) <= Recording.Frontier(s.world.rows, k)
         <= |Emitted(s.log[..Clear(s.log)], k)|
  {
    var frontier := Recording.Frontier(s.world.rows, k);
    Recording.LedgerExact(s.world.rows, k);
    if frontier > 0 {
      assert frontier in Recording.Nums(s.world.rows, k);
      var r :| r in s.world.rows && r.stream == k && r.num == frontier;
      assert GenuineStored(s.log, r);
    }
  }

  // A frame that is not acknowledged waits, under its `ord`.
  lemma PendingAt(s: Sys, n: nat) returns (r: Spool.Row)
    requires SpoolInv(s) && n < |s.log|
    requires var k := s.log[n].WireStream(); Lookup(s.sup.spool.acked, k) < |Emitted(s.log[..n + 1], k)|
    ensures r in s.sup.spool.rows && r.ord == n + 1
  {
    var k := s.log[n].WireStream();
    EmittedPrefix(s.log, n + 1, k);
    r := PendingNum(s.sup.spool, k, |Emitted(s.log[..n + 1], k)|);
    assert Genuine(s.log, r) && Placed(s.log, r);
    SameCount(s.log, n, r.ord - 1, k);
  }

  // The first frame that cannot be sent, and every frame behind it, waits.
  lemma BlockedWait(s: Sys, n: nat) returns (r: Spool.Row)
    requires SpoolInv(s) && ServerInv(s) && Clear(s.log) <= n < |s.log|
    ensures r in s.sup.spool.rows && r.ord == n + 1
  {
    var k := s.log[n].WireStream();
    StoredIsClear(s, k);
    EmittedSlices(s.log, Clear(s.log), n, k);
    EmittedLast(s.log, n);
    r := PendingAt(s, n);
  }

  // A row that goes out has no frame before it that cannot.
  lemma SentIsClear(s: Sys, r: Spool.Row)
    requires SpoolInv(s) && SentInv(s) && ServerInv(s)
    requires Sender.Running(s.sup) && Sender.Taken(Sender.Resume(s.sup)) == Some(r) && Deliverable(r)
    ensures r.ord <= Clear(s.log)
  {
    Sender.ResumeDelivers(s.sup);
    OneMarked(s, r, r);
    var n := Clear(s.log);
    if n < r.ord {
      assert Placed(s.log, r);
      var p := BlockedWait(s, n);
      OneMarked(s, r, p);
      BlockedRow(s, p);
    }
  }

  lemma BlockedRow(s: Sys, p: Spool.Row)
    requires SpoolInv(s) && p in s.sup.spool.rows && p.ord == Clear(s.log) + 1
    ensures !Deliverable(p)
  {
    assert Genuine(s.log, p) && Placed(s.log, p);
    ClearRow(s.log, p);
  }

  // What the loop's step guarantees about the row it takes.
  ghost predicate Takes(s: Sys, next: Sender.Sup, r: Spool.Row) {
    && Sender.SupInv(next) && Sender.NoGhosts(next)
    && next.spool == s.sup.spool
    && next.hiRow == r.ord
    && !s.sup.drain.Detached?
    && (next.drain.Detached? || r.ord <= Clear(s.log))
    && r in s.sup.spool.rows
    && r.num == Lookup(s.sent, r.stream) + 1
    && (forall p :: p in s.sup.spool.rows ==> (p.ord <= r.ord <==> p.ord <= s.sup.hiRow || p == r))
  }

  lemma ResumeTakes(s: Sys, r: Spool.Row)
    requires SpoolInv(s) && SentInv(s) && ServerInv(s)
    requires Sender.Running(s.sup) && Sender.Taken(Sender.Resume(s.sup)) == Some(r)
    ensures Takes(s, Sender.Resume(s.sup).next, r)
    ensures Sender.Resume(s.sup).next.drain.Detached? <==> Sender.Resume(s.sup).Raises?
  {
    Sender.ResumeEffect(s.sup);
    Sender.ResumeDelivers(s.sup);
    SentIsNext(s, r);
    if Deliverable(r) {
      SentIsClear(s, r);
    }
    forall p | p in s.sup.spool.rows
      ensures p.ord <= r.ord <==> p.ord <= s.sup.hiRow || p == r
    {
      OneMarked(s, r, p);
    }
  }

  // Afterwards `sent` and `hiRow` mark the same rows again.
  lemma MarkedRow(s: Sys, next: Sender.Sup, r: Spool.Row)
    requires SpoolInv(s) && SentInv(s) && Takes(s, next, r)
    ensures SpoolInv(Marks(s, next, r)) && SentInv(Marks(s, next, r))
  {
    forall p | p in s.sup.spool.rows
      ensures p.num <= Lookup(Marks(s, next, r).sent, p.stream) <==> p.ord <= r.ord
    {
      SentMark(s, next, r, p);
    }
    SentBounds(s, next, r);
  }

  lemma SentBounds(s: Sys, next: Sender.Sup, r: Spool.Row)
    requires SpoolInv(s) && SentInv(s) && Takes(s, next, r)
    ensures forall k :: Lookup(s.sup.spool.acked, k) <= Lookup(Marks(s, next, r).sent, k) <= |Emitted(s.log, k)|
  {
    PendingNums(s.sup.spool, r.stream);
  }

  lemma SentMark(s: Sys, next: Sender.Sup, r: Spool.Row, p: Spool.Row)
    requires Spool.Inv(s.sup.spool) && SentInv(s) && Takes(s, next, r) && p in s.sup.spool.rows
    ensures p.num <= Lookup(s.sent[r.stream := r.num], p.stream) <==> p.ord <= r.ord
  {
    if p.stream == r.stream {
      NumOrder(s.sup.spool, p, r);
    }
  }

  lemma DrainInv(s: Sys)
    requires SysInv(s)
    ensures SysInv(Act(s, Drain))
  {
    if Sender.Running(s.sup) {
      var step := Sender.Resume(s.sup);
      match Sender.Taken(step)
      case Some(r) =>
        ResumeTakes(s, r);
        if step.Sends? {
          HandOverInv(s, step.next, r);
        } else {
          MarksInv(s, step.next, r);
        }
      case None => QuietDrain(s);
    }
  }

  lemma QuietDrain(s: Sys)
    requires SysInv(s) && Sender.Running(s.sup) && Sender.Taken(Sender.Resume(s.sup)).None?
    ensures SysInv(Act(s, Drain))
  {
    QuietWindow(s.sup);
    QuietStep(s);
    WindowStep(s, Sender.Resume(s.sup).next, s.hung || Sender.Resume(s.sup).Spins?);
  }

  lemma QuietWindow(sup: Sender.Sup)
    requires Sender.SupInv(sup) && Sender.NoGhosts(sup) && Sender.Running(sup) && Sender.Taken(Sender.Resume(sup)).None?
    ensures var t := Sender.Resume(sup).next;
            Sender.SupInv(t) && Sender.NoGhosts(t) && t.spool == sup.spool && t.hiRow == sup.hiRow
  {
    Sender.ResumeEffect(sup);
    Sender.ResumeDelivers(sup);
  }

  lemma QuietStep(s: Sys)
    requires Sender.Running(s.sup) && Sender.Taken(Sender.Resume(s.sup)).None?
    ensures var step := Sender.Resume(s.sup);
            Act(s, Drain) == s.(sup := step.next, hung := s.hung || step.Spins?)
  {
  }

  // The loop ended on the row.
  lemma MarksInv(s: Sys, next: Sender.Sup, r: Spool.Row)
    requires SysInv(s) && Takes(s, next, r) && next.drain.Detached?
    ensures SysInv(Marks(s, next, r))
  {
    var t := Marks(s, next, r);
    MarkedRow(s, next, r);
    ConnsLater(s, t);
    StoredRowsLater(s, t);
    SameFlows(s, t);
  }

  lemma HandOverInv(s: Sys, next: Sender.Sup, r: Spool.Row)
    requires SysInv(s) && Takes(s, next, r) && !next.drain.Detached?
    ensures SysInv(HandOver(s, next, r))
  {
    var t := HandOver(s, next, r);
    MarkedRow(s, next, r);
    HandOverConns(s, next, r);
    HandOverFlows(s, next, r);
    StoredRowsLater(s, t);
  }

  lemma HandOverConns(s: Sys, next: Sender.Sup, r: Spool.Row)
    requires SpoolInv(s) && Takes(s, next, r) && !next.drain.Detached? && ConnsOk(s, s.conns)
    ensures ConnsOk(HandOver(s, next, r), HandOver(s, next, r).conns)
  {
    var t := HandOver(s, next, r);
    ConnsLater(s, t);
    PendingRowOk(s, r);
    RowLater(s, t, r);
    forall i | 0 <= i < |t.conns|
      ensures ConnOk(t, t.conns[i])
    {
      assert ConnOk(t, s.conns[i]);
    }
  }

  lemma PendingRowOk(s: Sys, r: Spool.Row)
    requires SpoolInv(s) && r in s.sup.spool.rows && r.ord <= Clear(s.log)
    ensures RowOk(s, r)
  {
    forall p | p in s.sup.spool.rows && p.ord == r.ord
      ensures p == r
    {
      OrdUnique(s.sup.spool, p, r);
    }
    var i :| 0 <= i < |s.sup.spool.rows| && s.sup.spool.rows[i] == r;
  }

  lemma HandOverFlow(s: Sys, next: Sender.Sup, r: Spool.Row, i: nat, k: Stream)
    requires i < |s.conns|
    ensures var t := HandOver(s, next, r);
            Flow(t, i, k) == Flow(s, i, k)
              + if i == |s.conns| - 1 && s.conns[i].open && k == r.stream then [r.num] else []
  {
    NumsConcat(s.conns[i].ipc, [r], k);
    assert Nums([r], k) == if k == r.stream then [r.num] else [];
  }

  lemma Extend(nums: seq<nat>, n: nat, sent: nat, frontier: nat)
    requires Chain(nums, frontier) && Continues(nums, sent, frontier) && n == sent + 1
    ensures Chain(nums + [n], frontier) && Continues(nums + [n], n, frontier)
  {
  }

  lemma HandOverChain(s: Sys, next: Sender.Sup, r: Spool.Row, i: nat, k: Stream)
    requires i < |s.conns| && r.num == Lookup(s.sent, r.stream) + 1
    requires Chain(Flow(s, i, k), Recording.Frontier(s.world.rows, k))
    requires i == |s.conns| - 1 && s.conns[i].open ==>
               Continues(Flow(s, i, k), Lookup(s.sent, k), Recording.Frontier(s.world.rows, k))
    ensures Chain(Flow(HandOver(s, next, r), i, k), Recording.Frontier(s.world.rows, k))
  {
    var before := Flow(s, i, k);
    HandOverFlow(s, next, r, i, k);
    if i == |s.conns| - 1 && s.conns[i].open && k == r.stream {
      Extend(before, r.num, Lookup(s.sent, k), Recording.Frontier(s.world.rows, k));
    }
  }

  lemma HandOverContinues(s: Sys, next: Sender.Sup, r: Spool.Row, k: Stream)
    requires s.conns != [] && s.conns[|s.conns| - 1].open
    requires r.num == Lookup(s.sent, r.stream) + 1
    requires Continues(Flow(s, |s.conns| - 1, k), Lookup(s.sent, k), Recording.Frontier(s.world.rows, k))
    ensures var t := HandOver(s, next, r);
            Continues(Flow(t, |s.conns| - 1, k), Lookup(t.sent, k), Recording.Frontier(s.world.rows, k))
  {
    HandOverFlow(s, next, r, |s.conns| - 1, k);
  }

  lemma HandOverChains(s: Sys, next: Sender.Sup, r: Spool.Row)
    requires FlowInv(s) && r.num == Lookup(s.sent, r.stream) + 1 && !s.sup.drain.Detached?
    ensures var t := HandOver(s, next, r);
            forall i, k :: 0 <= i < |t.conns| ==> Chain(Flow(t, i, k), Recording.Frontier(s.world.rows, k))
  {
    forall i, k | 0 <= i < |s.conns|
      ensures Chain(Flow(HandOver(s, next, r), i, k), Recording.Frontier(s.world.rows, k))
    {
      HandOverChain(s, next, r, i, k);
    }
  }

  lemma HandOverFlows(s: Sys, next: Sender.Sup, r: Spool.Row)
    requires FlowInv(s) && Takes(s, next, r)
    ensures FlowInv(HandOver(s, next, r))
  {
    var t := HandOver(s, next, r);
    HandOverChains(s, next, r);
    if t.conns[|t.conns| - 1].open {
      forall k
        ensures Continues(Flow(t, |t.conns| - 1, k), Lookup(t.sent, k), Recording.Frontier(t.world.rows, k))
      {
        HandOverContinues(s, next, r, k);
      }
    }
  }

  // ---- Acknowledgements reach the spool ------------------------------------------------------------

  lemma AckMessageInv(s: Sys, ord: nat)
    requires SysInv(s)
    requires MessageOk(s, DeliveryAck(ord))
    ensures SysInv(s.(sup := Sender.ApplyAck(s.sup, Sender.RowId(ord))))
  {
    var sup := Sender.ApplyAck(s.sup, Sender.RowId(ord));
    var t := s.(sup := sup);
    if sup == s.sup {
      assert t == s;
    } else {
      AckSpoolInv(s, ord);
      AckStored(s, ord);
      SupervisorOnly(s, t);
    }
  }

  // What is acknowledged is stored.
  lemma AckStored(s: Sys, ord: nat)
    requires Spool.Inv(s.sup.spool) && MessageOk(s, DeliveryAck(ord))
    requires Sender.ApplyAck(s.sup, Sender.RowId(ord)) != s.sup
    requires forall k :: Lookup(s.sup.spool.acked, k) <= Recording.Frontier(s.world.rows, k)
    ensures var sup := Sender.ApplyAck(s.sup, Sender.RowId(ord));
            forall k :: Lookup(sup.spool.acked, k) <= Recording.Frontier(s.world.rows, k)
  {
    AckLanes(s.sup.spool, ord);
    Spool.FindMeans(s.sup.spool.rows, ord);
  }

  lemma AckSpoolInv(s: Sys, ord: nat)
    requires SpoolInv(s) && SentInv(s)
    requires Sender.ApplyAck(s.sup, Sender.RowId(ord)) != s.sup
    ensures var t := s.(sup := Sender.ApplyAck(s.sup, Sender.RowId(ord)));
            SpoolInv(t) && SentInv(t) && Later(s, t)
  {
    Sender.ApplyAckInv(s.sup, Sender.RowId(ord));
    Sender.AckRowClean(s.sup, ord);
    AckSpool(s.sup, ord);
    AckedWasSent(s, ord);
    FewerRows(s, Sender.ApplyAck(s.sup, Sender.RowId(ord)), Spool.Find(s.sup.spool.rows, ord).value);
  }

  // One row less, acknowledged.
  lemma FewerRows(s: Sys, sup: Sender.Sup, row: Spool.Row)
    requires SpoolInv(s) && SentInv(s)
    requires Sender.SupInv(sup) && Sender.NoGhosts(sup)
    requires sup.spool.lastOrd == s.sup.spool.lastOrd && sup.hiRow == s.sup.hiRow && sup.drain == s.sup.drain
    requires forall r :: r in sup.spool.rows ==> r in s.sup.spool.rows
    requires sup.spool.acked == s.sup.spool.acked[row.stream := row.num]
    requires row.num == Lookup(s.sup.spool.acked, row.stream) + 1 <= Lookup(s.sent, row.stream)
    requires forall k :: Lookup(sup.spool.acked, k) + |Spool.Lane(sup.spool.rows, k)|
                      == Lookup(s.sup.spool.acked, k) + |Spool.Lane(s.sup.spool.rows, k)|
    ensures var t := s.(sup := sup); SpoolInv(t) && SentInv(t) && Later(s, t)
  {
  }

  // What an acknowledgement leaves of the spool.
  lemma AckSpool(sup: Sender.Sup, ord: nat)
    requires Spool.Inv(sup.spool) && Sender.ApplyAck(sup, Sender.RowId(ord)) != sup
    ensures Spool.AcksOrd(sup.spool, ord)
    ensures var t := Sender.ApplyAck(sup, Sender.RowId(ord)); var row := Spool.Find(sup.spool.rows, ord).value;
            && t.spool.lastOrd == sup.spool.lastOrd && t.hiRow == sup.hiRow && t.drain == sup.drain
            && (forall r :: r in t.spool.rows ==> r in sup.spool.rows)
            && t.spool.acked == sup.spool.acked[row.stream := row.num]
            && row.num == Lookup(sup.spool.acked, row.stream) + 1
            && forall k :: Lookup(t.spool.acked, k) + |Spool.Lane(t.spool.rows, k)|
                        == Lookup(sup.spool.acked, k) + |Spool.Lane(sup.spool.rows, k)|
  {
    Sender.AckOrdRemoves(sup.spool, ord);
    AckLanes(sup.spool, ord);
  }

  lemma AckedWasSent(s: Sys, ord: nat)
    requires SpoolInv(s) && SentInv(s)
    requires Sender.ApplyAck(s.sup, Sender.RowId(ord)) != s.sup
    ensures Spool.Find(s.sup.spool.rows, ord).Some?
    ensures var row := Spool.Find(s.sup.spool.rows, ord).value; row.num <= Lookup(s.sent, row.stream)
  {
    var spool := s.sup.spool;
    Spool.FindMeans(spool.rows, ord);
    var row := Spool.Find(spool.rows, ord).value;
    var i :| 0 <= i < |spool.rows| && spool.rows[i] == row;
    assert Sender.InFlight(s.sup.inflight, Sender.RowId(spool.rows[i].ord));
  }

  // Acknowledging moves one frame from pending to acknowledged and loses none.
  lemma AckLanes(spool: Spool.State, ord: nat)
    requires Spool.Inv(spool) && Spool.AcksOrd(spool, ord)
    ensures var row := Spool.Find(spool.rows, ord).value; var after := Spool.AckOrd(spool, ord);
            && after.acked == spool.acked[row.stream := row.num]
            && row.num == Lookup(spool.acked, row.stream) + 1
            && forall k :: Lookup(after.acked, k) + |Spool.Lane(after.rows, k)|
                        == Lookup(spool.acked, k) + |Spool.Lane(spool.rows, k)|
  {
    var row := Spool.Find(spool.rows, ord).value;
    var after := Spool.AckOrd(spool, ord);
    forall k
      ensures Lookup(after.acked, k) + |Spool.Lane(after.rows, k)|
           == Lookup(spool.acked, k) + |Spool.Lane(spool.rows, k)|
    {
      Spool.WithoutFirstLanes(spool.rows, row.stream, k);
    }
  }

  // ---- Steps of one connection and the server ------------------------------------------------------

  // Connection i becomes c, the ledger becomes world; nothing else moves.
  function With(s: Sys, i: nat, c: Conn, world: Recording.World): Sys
    requires i < |s.conns|
  {
    s.(conns := s.conns[i := c], world := world)
  }

  // The ledger side of a connection step.
  ghost predicate WorldStep(s: Sys, i: nat, world: Recording.World) {
    && Recording.WorldInv(world)
    && (forall r :: r in world.rows ==> GenuineStored(s.log, r))
    && (forall c :: c in world.held ==> GenuineStored(s.log, world.held[c].row))
    && (forall k :: Recording.Frontier(s.world.rows, k) <= Recording.Frontier(world.rows, k))
    && (forall c :: c != i ==> (c in world.held <==> c in s.world.held))
    && (forall c :: c != i && c in world.held ==> world.held[c] == s.world.held[c])
  }

  // The flow of the connection either lost nothing, or its first number, by now
  // stored, or it was cut and the connection closed.
  ghost predicate FlowStep(s: Sys, t: Sys, i: nat, k: Stream)
    requires i < |s.conns| == |t.conns|
  {
    var before, after := Flow(s, i, k), Flow(t, i, k);
    || (after == before && (t.conns[i].open ==> s.conns[i].open))
    || (before != [] && after == before[1..] && before[0] <= Recording.Frontier(t.world.rows, k)
        && (t.conns[i].open ==> s.conns[i].open))
    || (after <= before && !t.conns[i].open)
  }

  ghost predicate KeepsFlows(s: Sys, i: nat, c: Conn, world: Recording.World)
    requires i < |s.conns|
  {
    forall k :: FlowStep(s, With(s, i, c, world), i, k)
  }

  lemma OtherFlow(s: Sys, i: nat, c: Conn, world: Recording.World, j: nat, k: Stream)
    requires i < |s.conns| && j < |s.conns| && j != i
    requires WorldStep(s, i, world)
    ensures Flow(With(s, i, c, world), j, k) == Flow(s, j, k)
  {
  }

  lemma FlowStepChain(s: Sys, t: Sys, i: nat, k: Stream)
    requires i < |s.conns| == |t.conns|
    requires FlowStep(s, t, i, k)
    requires Recording.Frontier(s.world.rows, k) <= Recording.Frontier(t.world.rows, k)
    requires Chain(Flow(s, i, k), Recording.Frontier(s.world.rows, k))
    ensures Chain(Flow(t, i, k), Recording.Frontier(t.world.rows, k))
  {
    var before, after := Flow(s, i, k), Flow(t, i, k);
    if after != before && before != [] && after == before[1..] {
      assert after != [] ==> after[0] == before[1] == before[0] + 1;
    }
  }

  lemma FlowStepContinues(s: Sys, t: Sys, i: nat, k: Stream, sent: nat)
    requires i < |s.conns| == |t.conns|
    requires FlowStep(s, t, i, k) && t.conns[i].open
    requires Recording.Frontier(s.world.rows, k) <= Recording.Frontier(t.world.rows, k)
    requires s.conns[i].open ==> Continues(Flow(s, i, k), sent, Recording.Frontier(s.world.rows, k))
    ensures Continues(Flow(t, i, k), sent, Recording.Frontier(t.world.rows, k))
  {
  }

  lemma ConnStepFlows(s: Sys, i: nat, c: Conn, world: Recording.World)
    requires i < |s.conns| && FlowInv(s) && WorldStep(s, i, world)
    requires KeepsFlows(s, i, c, world)
    ensures FlowInv(With(s, i, c, world))
  {
    var t := With(s, i, c, world);
    var last := |s.conns| - 1;
    forall j, k | 0 <= j < |t.conns|
      ensures Chain(Flow(t, j, k), Recording.Frontier(t.world.rows, k))
    {
      assert Chain(Flow(s, j, k), Recording.Frontier(s.world.rows, k));
      if j == i {
        assert FlowStep(s, t, i, k);
        FlowStepChain(s, t, i, k);
      } else {
        OtherFlow(s, i, c, world, j, k);
      }
    }
    if t.conns[last].open && !t.sup.drain.Detached? {
      forall k
        ensures Continues(Flow(t, last, k), Lookup(t.sent, k), Recording.Frontier(t.world.rows, k))
      {
        ConnStepContinues(s, i, c, world, k);
      }
    }
  }

  lemma ConnStepContinues(s: Sys, i: nat, c: Conn, world: Recording.World, k: Stream)
    requires i < |s.conns| && WorldStep(s, i, world)
    requires FlowStep(s, With(s, i, c, world), i, k)
    requires var last := |s.conns| - 1;
             s.conns[last].open ==> Continues(Flow(s, last, k), Lookup(s.sent, k), Recording.Frontier(s.world.rows, k))
    requires With(s, i, c, world).conns[|s.conns| - 1].open
    ensures Continues(Flow(With(s, i, c, world), |s.conns| - 1, k), Lookup(s.sent, k),
                      Recording.Frontier(world.rows, k))
  {
    var t := With(s, i, c, world);
    if i == |s.conns| - 1 {
      FlowStepContinues(s, t, i, k, Lookup(s.sent, k));
    } else {
      OtherFlow(s, i, c, world, |s.conns| - 1, k);
    }
  }

  lemma ConnStep(s: Sys, i: nat, c: Conn, world: Recording.World)
    requires SysInv(s) && i < |s.conns|
    requires WorldStep(s, i, world)
    requires ConnOk(With(s, i, c, world), c)
    requires KeepsFlows(s, i, c, world)
    ensures SysInv(With(s, i, c, world))
  {
    var t := With(s, i, c, world);
    ConnStepFlows(s, i, c, world);
    ConnsLater(s, t);
    OneConn(t, s.conns, i, c);
  }

  lemma OneConn(t: Sys, conns: seq<Conn>, i: nat, c: Conn)
    requires ConnsOk(t, conns) && i < |conns| && ConnOk(t, c)
    ensures ConnsOk(t, conns[i := c])
  {
    var after := conns[i := c];
    forall j | 0 <= j < |after|
      ensures ConnOk(t, after[j])
    {
      if j != i {
        assert ConnOk(t, conns[j]);
      }
    }
  }

  // A step that leaves the ledger alone and keeps or shortens one flow.
  lemma ConnOnly(s: Sys, i: nat, c: Conn)
    requires SysInv(s) && i < |s.conns| && ConnOk(s, c)
    requires KeepsFlows(s, i, c, s.world)
    ensures SysInv(With(s, i, c, s.world))
  {
    ConnLater(s, With(s, i, c, s.world), c);
    SameWorldStep(s, i);
    ConnStep(s, i, c, s.world);
  }

  lemma ConnAt(s: Sys, i: nat)
    requires SysInv(s) && i < |s.conns|
    ensures ConnOk(s, s.conns[i])
  {
    assert ConnsOk(s, s.conns);
  }

  // A step that leaves the ledger alone.
  lemma SameWorldStep(s: Sys, i: nat)
    requires SysInv(s)
    ensures WorldStep(s, i, s.world)
  {
  }

  // A connection whose queues only lost messages is still in order.
  lemma FewerMessages(s: Sys, c: Conn, c': Conn)
    requires ConnOk(s, c)
    requires forall r :: r in c'.ipc || r in c'.ws ==> r in c.ipc || r in c.ws
    requires c'.outstanding == c.outstanding
    requires forall reply :: reply in c'.down ==> reply in c.down
    requires forall m :: m in c'.up ==> m in c.up
    ensures ConnOk(s, c')
  {
    forall r | r in c'.ipc || r in c'.ws
      ensures RowOk(s, r)
    {
      assert r in c.ipc || r in c.ws;
    }
  }

  lemma ForwardConnOk(s: Sys, c: Conn)
    requires ConnOk(s, c) && c.ipc != []
    ensures ConnOk(s, Forwarded(c))
  {
    var r := c.ipc[0];
    assert r in c.ipc;
    var c' := c.(ipc := c.ipc[1..], ws := c.ws + [r]);
    FewerMessages(s, c, c');
  }

  lemma ForwardFlow(s: Sys, i: nat, k: Stream)
    requires i < |s.conns| && s.conns[i].ipc != []
    ensures FlowStep(s, With(s, i, Forwarded(s.conns[i]), s.world), i, k)
  {
    var c := s.conns[i];
    var r := c.ipc[0];
    NumsConcat(c.ws, [r], k);
    NumsConcat([r], c.ipc[1..], k);
    assert [r] + c.ipc[1..] == c.ipc;
    assert Flow(With(s, i, Forwarded(c), s.world), i, k) == Flow(s, i, k);
  }

  lemma ForwardInv(s: Sys, i: nat)
    requires SysInv(s)
    ensures SysInv(Act(s, Forward(i)))
  {
    if i < |s.conns| && s.conns[i].ipc != [] {
      ConnAt(s, i);
      ForwardConnOk(s, s.conns[i]);
      forall k
        ensures FlowStep(s, With(s, i, Forwarded(s.conns[i]), s.world), i, k)
      {
        ForwardFlow(s, i, k);
      }
      ConnOnly(s, i, Forwarded(s.conns[i]));
    }
  }

  lemma LoseFlow(s: Sys, i: nat, keepIpc: nat, keepWs: nat, c': Conn, k: Stream)
    requires i < |s.conns|
    requires var c := s.conns[i];
             && c'.ipc == (if keepWs < |c.ws| then [] else Take(c.ipc, keepIpc))
             && c'.ws == Take(c.ws, keepWs)
    ensures Flow(With(s, i, c', s.world), i, k) <= Flow(s, i, k)
  {
    var c := s.conns[i];
    var held := HeldNums(s.world, i, k);
    NumsTake(c.ws, keepWs, k);
    NumsTake(c.ipc, keepIpc, k);
    if keepWs < |c.ws| {
      PrefixConcat(Nums(c'.ws, k), Nums(c.ws, k), Nums(c.ipc, k));
      assert Flow(With(s, i, c', s.world), i, k) == held + Nums(c'.ws, k);
      assert Flow(s, i, k) == held + (Nums(c.ws, k) + Nums(c.ipc, k));
    } else {
      assert c'.ws == c.ws;
      assert Flow(With(s, i, c', s.world), i, k) == held + Nums(c.ws, k) + Nums(c'.ipc, k);
    }
  }

  lemma PrefixConcat(a: seq<nat>, b: seq<nat>, rest: seq<nat>)
    requires a <= b
    ensures a <= b + rest
  {
  }

  lemma LoseFlows(s: Sys, i: nat, keepIpc: nat, keepWs: nat, keepDown: nat, keepUp: nat)
    requires i < |s.conns|
    ensures KeepsFlows(s, i, Lost(s.conns[i], keepIpc, keepWs, keepDown, keepUp), s.world)
  {
    var c' := Lost(s.conns[i], keepIpc, keepWs, keepDown, keepUp);
    forall k
      ensures FlowStep(s, With(s, i, c', s.world), i, k)
    {
      LoseFlow(s, i, keepIpc, keepWs, c', k);
    }
  }

  lemma LostConn(s: Sys, c: Conn, keepIpc: nat, keepWs: nat, keepDown: nat, keepUp: nat)
    requires ConnOk(s, c)
    ensures ConnOk(s, Lost(c, keepIpc, keepWs, keepDown, keepUp))
  {
    FewerMessages(s, c, Lost(c, keepIpc, keepWs, keepDown, keepUp));
  }

  lemma LoseWithInv(s: Sys, i: nat, keepIpc: nat, keepWs: nat, keepDown: nat, keepUp: nat)
    requires SysInv(s) && i < |s.conns|
    ensures SysInv(With(s, i, Lost(s.conns[i], keepIpc, keepWs, keepDown, keepUp), s.world))
  {
    ConnAt(s, i);
    LostConn(s, s.conns[i], keepIpc, keepWs, keepDown, keepUp);
    LoseFlows(s, i, keepIpc, keepWs, keepDown, keepUp);
    ConnOnly(s, i, Lost(s.conns[i], keepIpc, keepWs, keepDown, keepUp));
  }

  lemma LoseIsWith(s: Sys, i: nat, keepIpc: nat, keepWs: nat, keepDown: nat, keepUp: nat)
    requires i < |s.conns|
    ensures Act(s, Lose(i, keepIpc, keepWs, keepDown, keepUp))
         == With(s, i, Lost(s.conns[i], keepIpc, keepWs, keepDown, keepUp), s.world)
  {
  }

  lemma LoseInv(s: Sys, i: nat, keepIpc: nat, keepWs: nat, keepDown: nat, keepUp: nat)
    requires SysInv(s)
    ensures SysInv(Act(s, Lose(i, keepIpc, keepWs, keepDown, keepUp)))
  {
    if i < |s.conns| {
      LoseWithInv(s, i, keepIpc, keepWs, keepDown, keepUp);
      LoseIsWith(s, i, keepIpc, keepWs, keepDown, keepUp);
    }
  }

  lemma DropFlow(s: Sys, i: nat, k: Stream)
    requires i < |s.conns|
    ensures FlowStep(s, With(s, i, Abandon(s.conns[i]), s.world.(held := s.world.held - {i})), i, k)
  {
    assert Flow(With(s, i, Abandon(s.conns[i]), s.world.(held := s.world.held - {i})), i, k) == [];
  }

  lemma DropWorld(s: Sys, i: nat)
    requires ServerInv(s)
    ensures WorldStep(s, i, s.world.(held := s.world.held - {i}))
  {
  }

  lemma DropInv(s: Sys, i: nat)
    requires SysInv(s)
    ensures SysInv(Act(s, ServerDrop(i)))
  {
    if i < |s.conns| {
      var world := s.world.(held := s.world.held - {i});
      var c' := Abandon(s.conns[i]);
      ConnAt(s, i);
      FewerMessages(s, s.conns[i], c');
      ConnLater(s, With(s, i, c', world), c');
      DropWorld(s, i);
      forall k
        ensures FlowStep(s, With(s, i, c', world), i, k)
      {
        DropFlow(s, i, k);
      }
      ConnStep(s, i, c', world);
    }
  }

  // The first number of a flow, when its connection is idle at the server.
  lemma HeadNum(s: Sys, i: nat)
    requires FlowInv(s) && i < |s.conns|
    requires s.conns[i].ws != [] && i !in s.world.held
    ensures s.conns[i].ws[0].num <= Recording.Frontier(s.world.rows, s.conns[i].ws[0].stream) + 1
    ensures forall k :: Flow(s, i, k)
                     == (if k == s.conns[i].ws[0].stream then [s.conns[i].ws[0].num] else [])
                        + Nums(s.conns[i].ws[1..], k) + Nums(s.conns[i].ipc, k)
  {
    var r := s.conns[i].ws[0];
    forall k
      ensures Flow(s, i, k)
           == (if k == r.stream then [r.num] else []) + Nums(s.conns[i].ws[1..], k) + Nums(s.conns[i].ipc, k)
    {}
    assert Chain(Flow(s, i, r.stream), Recording.Frontier(s.world.rows, r.stream));
    assert Flow(s, i, r.stream)[0] == r.num;
  }

  // A genuine frame within one of the frontier is new or a duplicate, never a gap,
  // a conflict or a stale tail.
  lemma ArrivalVerdict(s: Sys, r: Spool.Row, redact: bool, now: int)
    requires ServerInv(s) && Genuine(s.log, r)
    requires r.num <= Recording.Frontier(s.world.rows, r.stream) + 1
    ensures var v := Recording.Classify(s.world.rows, IncomingOf(r, redact, now));
            && (r.num == Recording.Frontier(s.world.rows, r.stream) + 1 ==> v.New?)
            && (r.num <= Recording.Frontier(s.world.rows, r.stream) ==> v.Duplicate?)
  {
    var f := IncomingOf(r, redact, now);
    Recording.ClassifyExact(s.world.rows, f);
    forall stored | stored in s.world.rows && stored.stream == f.stream && stored.num == f.num
      ensures stored.hash == Recording.PayloadHash(f.kind, f.data)
    {
      assert GenuineStored(s.log, stored);
    }
  }

  lemma ReadDuplicateConn(s: Sys, c: Conn)
    requires ConnOk(s, c) && c.ws != []
    requires c.ws[0].num <= Recording.Frontier(s.world.rows, c.ws[0].stream)
    ensures var r := c.ws[0];
            ConnOk(s, c.(ws := c.ws[1..], down := c.down + [Recording.AckReply(r.stream, r.num)]))
  {
    var r := c.ws[0];
    assert RowOk(s, r);
    var fewer := c.(ws := c.ws[1..]);
    FewerMessages(s, c, fewer);
    assert ReplyOk(s, Recording.AckReply(r.stream, r.num));
  }

  // A connection whose first unread row was read, its number being stored by now.
  lemma ReadFlow(s: Sys, i: nat, c': Conn, world: Recording.World, k: Stream)
    requires FlowInv(s) && i < |s.conns| && s.conns[i].ws != [] && i !in s.world.held
    requires c'.ws == s.conns[i].ws[1..] && c'.ipc == s.conns[i].ipc && c'.open == s.conns[i].open
    requires var r := s.conns[i].ws[0];
             || (i !in world.held && r.num <= Recording.Frontier(world.rows, r.stream))
             || (i in world.held && world.held[i].row.stream == r.stream && world.held[i].row.num == r.num)
    ensures FlowStep(s, With(s, i, c', world), i, k)
  {
    var r := s.conns[i].ws[0];
    var rest := Nums(c'.ws, k) + Nums(c'.ipc, k);
    HeadNum(s, i);
    assert Flow(s, i, k) == (if k == r.stream then [r.num] else []) + rest;
    var held := HeldNums(world, i, k);
    assert Flow(With(s, i, c', world), i, k) == held + rest;
  }

  lemma ReadDuplicate(s: Sys, i: nat)
    requires SysInv(s) && i < |s.conns| && s.conns[i].ws != [] && i !in s.world.held
    requires s.conns[i].ws[0].num <= Recording.Frontier(s.world.rows, s.conns[i].ws[0].stream)
    ensures var c := s.conns[i]; var r := c.ws[0];
            SysInv(With(s, i, c.(ws := c.ws[1..], down := c.down + [Recording.AckReply(r.stream, r.num)]), s.world))
  {
    var c := s.conns[i];
    var r := c.ws[0];
    ConnAt(s, i);
    ReadDuplicateConn(s, c);
    SameWorldStep(s, i);
    ReadConn(s, i, c.(ws := c.ws[1..], down := c.down + [Recording.AckReply(r.stream, r.num)]), s.world);
  }

  lemma ReadNewWorld(s: Sys, i: nat, row: Recording.Stored, expected: nat)
    requires ServerInv(s) && GenuineStored(s.log, row)
    requires expected == row.num <= Recording.Frontier(s.world.rows, row.stream) + 1
    ensures WorldStep(s, i, s.world.(held := s.world.held[i := Recording.Held(row, expected)]))
  {
  }

  lemma ReadConn(s: Sys, i: nat, c': Conn, world: Recording.World)
    requires SysInv(s) && i < |s.conns| && s.conns[i].ws != [] && i !in s.world.held
    requires c'.ws == s.conns[i].ws[1..] && c'.ipc == s.conns[i].ipc && c'.open == s.conns[i].open
    requires var r := s.conns[i].ws[0];
             || (i !in world.held && r.num <= Recording.Frontier(world.rows, r.stream))
             || (i in world.held && world.held[i].row.stream == r.stream && world.held[i].row.num == r.num)
    requires WorldStep(s, i, world) && ConnOk(s, c')
    ensures SysInv(With(s, i, c', world))
  {
    var t := With(s, i, c', world);
    ConnLater(s, t, c');
    forall k
      ensures FlowStep(s, t, i, k)
    {
      ReadFlow(s, i, c', world, k);
    }
    ConnStep(s, i, c', world);
  }

  lemma ReadNew(s: Sys, i: nat, row: Recording.Stored, expected: nat)
    requires SysInv(s) && i < |s.conns| && s.conns[i].ws != [] && i !in s.world.held
    requires row.stream == s.conns[i].ws[0].stream && row.num == s.conns[i].ws[0].num
    requires expected == row.num <= Recording.Frontier(s.world.rows, row.stream) + 1
    requires GenuineStored(s.log, row)
    ensures var c := s.conns[i];
            SysInv(With(s, i, c.(ws := c.ws[1..]), s.world.(held := s.world.held[i := Recording.Held(row, expected)])))
  {
    var c := s.conns[i];
    var world := s.world.(held := s.world.held[i := Recording.Held(row, expected)]);
    var c' := c.(ws := c.ws[1..]);
    assert ConnOk(s, c);
    FewerMessages(s, c, c');
    ReadNewWorld(s, i, row, expected);
    ReadConn(s, i, c', world);
  }

  // The first unread row is new or a duplicate.
  lemma ReadVerdict(s: Sys, i: nat, redact: bool, now: int)
    requires SysInv(s) && i < |s.conns| && s.conns[i].ws != [] && i !in s.world.held
    ensures var r := s.conns[i].ws[0]; var f := IncomingOf(r, redact, now);
            var v := Recording.Classify(s.world.rows, f); var frontier := Recording.Frontier(s.world.rows, r.stream);
            && f.stream == r.stream
            && (|| (v.New? && v.row.stream == r.stream && v.row.num == r.num <= frontier + 1 && GenuineStored(s.log, v.row))
                || (v.Duplicate? && r.num <= frontier))
  {
    ConnAt(s, i);
    FirstRow(s, s.conns[i]);
    HeadNum(s, i);
    ArrivalVerdict(s, s.conns[i].ws[0], redact, now);
    NewIsGenuine(s, s.conns[i].ws[0], redact, now);
  }

  lemma NewIsGenuine(s: Sys, r: Spool.Row, redact: bool, now: int)
    requires RowOk(s, r)
    ensures var row := Recording.NewRow(IncomingOf(r, redact, now));
            row.stream == r.stream && row.num == r.num && GenuineStored(s.log, row)
  {
    EmittedSlices(s.log, r.ord, Clear(s.log), r.stream);
  }

  lemma ServerReadInv(s: Sys, i: nat, redact: bool, now: int)
    requires SysInv(s)
    ensures SysInv(Act(s, ServerRead(i, redact, now)))
  {
    if i < |s.conns| && s.conns[i].ws != [] && i !in s.world.held {
      ReadAdmissible(s, i);
      ReadVerdict(s, i, redact, now);
      var v := Recording.Classify(s.world.rows, IncomingOf(s.conns[i].ws[0], redact, now));
      ReadStep(s, i, redact, now, v);
      if v.New? {
        ReadNew(s, i, v.row, v.expected);
      } else {
        ReadDuplicate(s, i);
      }
    }
  }

  lemma ReadAdmissible(s: Sys, i: nat)
    requires SysInv(s) && i < |s.conns| && s.conns[i].ws != []
    ensures Admissible(s.conns[i].ws[0].frame)
  {
    ConnAt(s, i);
    FirstRow(s, s.conns[i]);
  }

  // What the server's answer is, once it accepted the row.
  lemma ReadStep(s: Sys, i: nat, redact: bool, now: int, v: Recording.Verdict)
    requires i < |s.conns| && s.conns[i].ws != [] && i !in s.world.held && Admissible(s.conns[i].ws[0].frame)
    requires var f := IncomingOf(s.conns[i].ws[0], redact, now);
             v == Recording.Classify(s.world.rows, f) && f.stream == s.conns[i].ws[0].stream
    ensures v.New? ==>
              Act(s, ServerRead(i, redact, now))
              == With(s, i, s.conns[i].(ws := s.conns[i].ws[1..]),
                      s.world.(held := s.world.held[i := Recording.Held(v.row, v.expected)]))
    ensures !v.New? ==>
              var c := s.conns[i];
              Act(s, ServerRead(i, redact, now))
              == With(s, i, c.(ws := c.ws[1..], down := c.down + [Recording.Response(v, c.ws[0].stream, c.ws[0].num)]),
                      s.world)
  {
    assert s.conns[i].down + [] == s.conns[i].down;
  }

  // ---- Committing -------------------------------------------------------------------------------------

  lemma HeldVerdict(s: Sys, i: nat)
    requires ServerInv(s) && i in s.world.held
    ensures var h := s.world.held[i];
            && Recording.CommitVerdict(s.world.rows, h.row, h.expected, false).Committed()
            && 1 <= h.row.num <= Recording.Frontier(s.world.rows, h.row.stream) + 1
  {
    var h := s.world.held[i];
    assert GenuineStored(s.log, h.row);
    Recording.FindRowMeans(s.world.rows, h.row.stream, h.row.num);
    SameHash(s, h.row);
  }

  // Two stored rows of one stream and number carry the same payload.
  lemma SameHash(s: Sys, r: Recording.Stored)
    requires ServerInv(s) && GenuineStored(s.log, r)
    ensures forall stored :: stored in s.world.rows && stored.stream == r.stream && stored.num == r.num ==>
              stored.hash == r.hash
  {
    forall stored | stored in s.world.rows && stored.stream == r.stream && stored.num == r.num
      ensures stored.hash == r.hash
    {
      assert GenuineStored(s.log, stored);
    }
  }

  // A held row is stored after its commit and the answer acknowledges it.
  lemma CommitAnswer(s: Sys, i: nat)
    requires ServerInv(s) && i in s.world.held
    ensures var h := s.world.held[i];
            var result := Recording.Act(s.world, Recording.CommitAction(i, false));
            && result.1 == [Recording.AckReply(h.row.stream, h.row.num)]
            && 1 <= h.row.num <= Recording.Frontier(result.0.rows, h.row.stream)
            && WorldStep(s, i, result.0)
            && i !in result.0.held
  {
    var h := s.world.held[i];
    HeldVerdict(s, i);
    Recording.CommitGrows(s.world.rows, h.row, false);
    CommitWorld(s, i);
  }

  lemma CommitWorld(s: Sys, i: nat)
    requires ServerInv(s) && i in s.world.held
    ensures WorldStep(s, i, Recording.Act(s.world, Recording.CommitAction(i, false)).0)
  {
    Recording.ActInv(s.world, Recording.CommitAction(i, false));
  }

  lemma CommitFlow(s: Sys, i: nat, world: Recording.World, c': Conn, k: Stream)
    requires FlowInv(s) && i < |s.conns| && i in s.world.held && i !in world.held
    requires s.world.held[i].row.num <= Recording.Frontier(world.rows, s.world.held[i].row.stream)
    requires c' == Abandon(s.conns[i])
             || (c'.open == s.conns[i].open && c'.ws == s.conns[i].ws && c'.ipc == s.conns[i].ipc)
    ensures FlowStep(s, With(s, i, c', world), i, k)
  {
    var row := s.world.held[i].row;
    var c := s.conns[i];
    var tail := Nums(c.ws, k) + Nums(c.ipc, k);
    assert Flow(s, i, k) == (if k == row.stream then [row.num] else []) + tail;
    if c' == Abandon(c) {
      assert Flow(With(s, i, c', world), i, k) == [];
    } else {
      assert Flow(With(s, i, c', world), i, k) == tail;
    }
  }

  lemma CommitConn(s: Sys, t: Sys, c: Conn, reply: Recording.Reply, current: bool)
    requires Later(s, t) && ConnOk(s, c) && ReplyOk(t, reply)
    ensures ConnOk(t, if current then c.(down := c.down + [reply]) else Abandon(c))
  {
    ConnLater(s, t, c);
    FewerMessages(t, c, Abandon(c));
  }

  lemma CommitInv(s: Sys, i: nat, current: bool)
    requires SysInv(s)
    ensures SysInv(Act(s, ServerCommit(i, current)))
  {
    if i < |s.conns| && i in s.world.held {
      var c := s.conns[i];
      var row := s.world.held[i].row;
      CommitAnswer(s, i);
      var world := Recording.Act(s.world, Recording.CommitAction(i, false)).0;
      var reply := Recording.AckReply(row.stream, row.num);
      var c' := if current then c.(down := c.down + [reply]) else Abandon(c);
      ConnAt(s, i);
      CommitConn(s, With(s, i, c', world), c, reply, current);
      forall k
        ensures FlowStep(s, With(s, i, c', world), i, k)
      {
        CommitFlow(s, i, world, c', k);
      }
      ConnStep(s, i, c', world);
    }
  }

  // ---- Answers and acknowledgements travel back ---------------------------------------------------------

  lemma TransportReadInv(s: Sys, i: nat)
    requires SysInv(s)
    ensures SysInv(Act(s, TransportRead(i)))
  {
    if i < |s.conns| && s.conns[i].down != [] {
      var c := s.conns[i];
      ConnAt(s, i);
      FirstReply(s, c);
      AckReplyConn(s, c.(down := c.down[1..]), c.down[0]);
      var c' := OnReply(c.(down := c.down[1..]), c.down[0], s.sup.spool.lastOrd);
      forall k
        ensures FlowStep(s, With(s, i, c', s.world), i, k)
      {
        SameQueuesFlow(s, i, c', k);
      }
      ConnOnly(s, i, c');
    }
  }

  lemma FirstReply(s: Sys, c: Conn)
    requires ConnOk(s, c) && c.down != []
    ensures ConnOk(s, c.(down := c.down[1..])) && ReplyOk(s, c.down[0])
  {
    FewerMessages(s, c, c.(down := c.down[1..]));
    assert c.down[0] in c.down;
  }

  lemma FirstMessage(s: Sys, c: Conn)
    requires ConnOk(s, c) && c.up != []
    ensures ConnOk(s, c.(up := c.up[1..])) && MessageOk(s, c.up[0])
  {
    FewerMessages(s, c, c.(up := c.up[1..]));
    assert c.up[0] in c.up;
  }

  lemma SameQueuesFlow(s: Sys, i: nat, c': Conn, k: Stream)
    requires i < |s.conns|
    requires c'.open == s.conns[i].open && c'.ws == s.conns[i].ws && c'.ipc == s.conns[i].ipc
    ensures FlowStep(s, With(s, i, c', s.world), i, k)
  {
    assert Flow(With(s, i, c', s.world), i, k) == Flow(s, i, k);
  }

  // The delivery id an acknowledged identity maps to names a row stored by now.
  lemma AckReplyConn(s: Sys, c: Conn, reply: Recording.Reply)
    requires ConnOk(s, c) && ReplyOk(s, reply)
    ensures ConnOk(s, OnReply(c, reply, s.sup.spool.lastOrd))
    ensures var c' := OnReply(c, reply, s.sup.spool.lastOrd);
            c'.ws == c.ws && c'.ipc == c.ipc && c'.open == c.open
  {
    var id := Ident(reply.stream, reply.num);
    if id in c.outstanding {
      var r := c.outstanding[id];
      assert RowOk(s, r) && r.stream == reply.stream && r.num == reply.num;
      assert MessageOk(s, DeliveryAck(r.ord));
    }
  }

  lemma SupervisorReadInv(s: Sys, i: nat)
    requires SysInv(s)
    ensures SysInv(Act(s, SupervisorRead(i)))
  {
    if i < |s.conns| && s.conns[i].up != [] {
      var c := s.conns[i];
      var c' := c.(up := c.up[1..]);
      ConnAt(s, i);
      FirstMessage(s, c);
      forall k
        ensures FlowStep(s, With(s, i, c', s.world), i, k)
      {
        SameQueuesFlow(s, i, c', k);
      }
      ConnOnly(s, i, c');
      AckMessageInv(With(s, i, c', s.world), c.up[0].ord);
    }
  }

  lemma ControlAckWindow(sup: Sender.Sup, id: nat)
    requires Sender.SupInv(sup) && Sender.NoGhosts(sup)
    ensures var t := Sender.ApplyAck(sup, Sender.ControlId(id));
            && Sender.SupInv(t) && Sender.NoGhosts(t)
            && t.spool == sup.spool && t.hiRow == sup.hiRow && t.drain == sup.drain
  {
    Sender.AckControlInv(sup, id);
    Sender.AckControlClean(sup, id);
  }

  lemma ControlAckInv(s: Sys, id: nat)
    requires SysInv(s)
    ensures SysInv(Act(s, ControlAck(id)))
  {
    ControlAckWindow(s.sup, id);
    ControlAckStep(s, id);
    WindowOnly(s, Sender.ApplyAck(s.sup, Sender.ControlId(id)));
  }

  lemma ControlAckStep(s: Sys, id: nat)
    ensures Act(s, ControlAck(id)) == s.(sup := Sender.ApplyAck(s.sup, Sender.ControlId(id)))
  {
  }

  // ---- Every run -------------------------------------------------------------------------------------------

  lemma InitInv()
    ensures SysInv(INIT)
  {
    Sender.StartInv(Spool.EMPTY);
    forall k
      ensures Recording.Frontier([], k) == 0
    {
      assert Recording.Nums([], k) == {};
    }
  }

  lemma EmitControlInv(s: Sys, agentId: string)
    requires SysInv(s)
    ensures SysInv(Act(s, EmitControl(agentId)))
  {
    Sender.EmitControlInv(s.sup, agentId);
    Sender.ControlClean(s.sup, agentId);
    WindowOnly(s, Sender.EmitControl(s.sup, agentId));
  }

  lemma DetachInv(s: Sys)
    requires SysInv(s)
    ensures SysInv(Act(s, Detach))
  {
    WindowOnly(s, Sender.Detach(s.sup));
  }

  lemma WakeWindow(sup: Sender.Sup)
    requires Sender.SupInv(sup) && Sender.NoGhosts(sup)
    ensures var t := Sender.Wake(sup);
            Sender.SupInv(t) && Sender.NoGhosts(t) && t.spool == sup.spool && t.hiRow == sup.hiRow
  {
    Sender.SameIndexPresent(sup, Sender.Wake(sup));
  }

  lemma WakeInv(s: Sys)
    requires SysInv(s)
    ensures SysInv(Act(s, Wake))
  {
    WakeWindow(s.sup);
    WindowOnly(s, Sender.Wake(s.sup));
  }

  lemma StepInv(s: Sys, a: Action)
    requires SysInv(s)
    ensures SysInv(Step(s, a))
  {
    if !(s.hung && OfSupervisor(a)) {
      ActInv(s, a);
    }
  }

  lemma ActInv(s: Sys, a: Action)
    requires SysInv(s)
    ensures SysInv(Act(s, a))
  {
    match a
    case Emit(f, bytes) => if FromSession(f) { EmitInv(s, f, bytes); }
    case EmitControl(agentId) => EmitControlInv(s, agentId);
    case AttachNew => AttachInv(s);
    case Detach => DetachInv(s);
    case CrashSupervisor => CrashInv(s);
    case Drain => DrainInv(s);
    case Wake => WakeInv(s);
    case ControlAck(id) => ControlAckInv(s, id);
    case SupervisorRead(i) => SupervisorReadInv(s, i);
    case _ => OutsideInv(s, a);
  }

  // The steps of transports, network and server.
  lemma OutsideInv(s: Sys, a: Action)
    requires SysInv(s) && !OfSupervisor(a) && !a.CrashSupervisor?
    ensures SysInv(Act(s, a))
  {
    match a
    case Forward(i) => ForwardInv(s, i);
    case ServerRead(i, redact, now) => ServerReadInv(s, i, redact, now);
    case ServerCommit(i, current) => CommitInv(s, i, current);
    case ServerDrop(i) => DropInv(s, i);
    case TransportRead(i) => TransportReadInv(s, i);
    case Lose(i, keepIpc, keepWs, keepDown, keepUp) => LoseInv(s, i, keepIpc, keepWs, keepDown, keepUp);
  }

  lemma {:induction false} RunInv(s: Sys, actions: seq<Action>)
    requires SysInv(s)
    ensures SysInv(Run(s, actions))
    decreases |actions|
  {
    if actions != [] {
      StepInv(s, actions[0]);
      RunInv(Step(s, actions[0]), actions[1..]);
    }
  }

  // The server holds exactly the first `frontier` emitted frames of a stream, once each,
  // under the numbers 1..frontier, and no fewer than were acknowledged.
  ghost predicate StoredPrefix(s: Sys, k: Stream) {
    var frontier := Recording.Frontier(s.world.rows, k);
    && Lookup(s.sup.spool.acked, k) <= frontier <= |Emitted(s.log, k)|
    && Recording.Exactly(Recording.Nums(s.world.rows, k), frontier)
    && Once(s.world.rows, k)
    && (forall r :: r in s.world.rows && r.stream == k ==> GenuineStored(s.log, r))
  }

  // No number of the stream is stored twice.
  ghost predicate Once(rows: seq<Recording.Stored>, k: Stream) {
    forall i, j :: 0 <= i < j < |rows| && rows[i].stream == k && rows[j].stream == k ==> rows[i].num != rows[j].num
  }

  // The spool holds exactly the emitted frames after the acknowledged ones, in order.
  ghost predicate PendingSuffix(s: Sys, k: Stream) {
    var emitted := Emitted(s.log, k);
    var acked := Lookup(s.sup.spool.acked, k);
    var lane := Spool.Lane(s.sup.spool.rows, k);
    && acked + |lane| == |emitted|
    && forall i :: 0 <= i < |lane| ==> lane[i].num == acked + 1 + i && lane[i].frame == emitted[acked + i]
  }

  lemma ServerHoldsPrefix(s: Sys, k: Stream)
    requires ServerInv(s)
    ensures StoredPrefix(s, k)
  {
    Recording.LedgerExact(s.world.rows, k);
    StoredIsClear(s, k);
    EmittedPrefix(s.log, Clear(s.log), k);
  }

  lemma SpoolHoldsSuffix(s: Sys, k: Stream)
    requires SpoolInv(s)
    ensures PendingSuffix(s, k)
  {
    var lane := Spool.Lane(s.sup.spool.rows, k);
    Spool.LaneMembers(s.sup.spool.rows, k);
    assert Spool.Contiguous(lane, Lookup(s.sup.spool.acked, k));
    assert Lookup(s.sup.spool.acked, k) + |lane| == |Emitted(s.log, k)|;
    forall i | 0 <= i < |lane|
      ensures lane[i].num == Lookup(s.sup.spool.acked, k) + 1 + i
      ensures lane[i].frame == Emitted(s.log, k)[lane[i].num - 1]
    {
      assert lane[i] in lane;
      assert Genuine(s.log, lane[i]);
    }
  }

  // In every run and for every stream, acknowledged <= stored <= emitted, the stored
  // frames are a prefix of the emitted ones and the pending ones are the suffix.
  lemma NothingLostDuplicatedOrReordered(actions: seq<Action>, k: Stream)
    ensures StoredPrefix(Run(INIT, actions), k)
    ensures PendingSuffix(Run(INIT, actions), k)
  {
    InitInv();
    RunInv(INIT, actions);
    var s := Run(INIT, actions);
    ServerHoldsPrefix(s, k);
    SpoolHoldsSuffix(s, k);
  }

  // Nothing that was emitted behind a frame that cannot be sent, on whatever stream, is
  // ever stored or acknowledged, nor is that frame: all of it stays in the spool.
  lemma NothingPastBlocked(actions: seq<Action>, n: nat)
    requires var log := Run(INIT, actions).log;
             n < |log| && exists m :: 0 <= m <= n && !CanBeSent(log, m)
    ensures var s := Run(INIT, actions); var k := s.log[n].WireStream();
            && Recording.Frontier(s.world.rows, k) < |Emitted(s.log[..n + 1], k)|
            && exists r :: r in s.sup.spool.rows && r.ord == n + 1 && r.stream == k && r.frame == s.log[n]
  {
    InitInv();
    RunInv(INIT, actions);
    var s := Run(INIT, actions);
    var k := s.log[n].WireStream();
    ClearMeans(s.log);
    StoredIsClear(s, k);
    EmittedSlices(s.log, Clear(s.log), n, k);
    EmittedLast(s.log, n);
    var r := BlockedWait(s, n);
    assert Genuine(s.log, r) && Placed(s.log, r);
  }

  // The server never answers anything but an acknowledgement, and the supervisor is
  // never told to fence: not even leftovers of an old connection that interleave with
  // the replay of a new one look like a gap, a conflict or a stale tail, and a frame that
  // is too large for the server does not get there.
  lemma OnlyAcknowledgements(actions: seq<Action>, i: nat)
    requires i < |Run(INIT, actions).conns|
    ensures var s := Run(INIT, actions);
            && (forall r :: r in s.conns[i].ws ==> Admissible(r.frame))
            && (forall reply :: reply in s.conns[i].down ==> reply.AckReply?)
            && (forall m :: m in s.conns[i].up ==> m.DeliveryAck?)
  {
    InitInv();
    RunInv(INIT, actions);
    var s := Run(INIT, actions);
    assert ConnOk(s, s.conns[i]);
    forall r | r in s.conns[i].ws
      ensures Admissible(r.frame)
    {
      assert RowOk(s, r);
      ClearRow(s.log, r);
    }
    forall reply | reply in s.conns[i].down
      ensures reply.AckReply?
    {
      assert ReplyOk(s, reply);
    }
    forall m | m in s.conns[i].up
      ensures m.DeliveryAck?
    {
      assert MessageOk(s, m);
    }
  }

  // Every frame about to be read by an idle connection's server side is at most one
  // past the frontier, and a repeated number carries the payload already stored.
  lemma ArrivalsInOrder(actions: seq<Action>, i: nat)
    requires var s := Run(INIT, actions);
             i < |s.conns| && s.conns[i].ws != [] && i !in s.world.held
    ensures var s := Run(INIT, actions); var r := s.conns[i].ws[0];
            && 1 <= r.num <= Recording.Frontier(s.world.rows, r.stream) + 1
            && SamePayload(s, r)
  {
    InitInv();
    RunInv(INIT, actions);
    var s := Run(INIT, actions);
    HeadNum(s, i);
    ConnAt(s, i);
    FirstRow(s, s.conns[i]);
    StoredPayload(s, s.conns[i].ws[0]);
  }

  // What the server stores under the number of a row is what the row carries.
  ghost predicate SamePayload(s: Sys, r: Spool.Row) {
    forall stored :: stored in s.world.rows && stored.stream == r.stream && stored.num == r.num ==>
      stored.kind == r.frame.kind && stored.hash == Recording.PayloadHash(r.frame.kind, r.frame.data)
  }

  // What is before the server is small enough for it.
  lemma FirstRow(s: Sys, c: Conn)
    requires ConnOk(s, c) && c.ws != []
    ensures RowOk(s, c.ws[0]) && Admissible(c.ws[0].frame)
  {
    assert RowOk(s, c.ws[0]);
    ClearRow(s.log, c.ws[0]);
  }

  lemma StoredPayload(s: Sys, r: Spool.Row)
    requires ServerInv(s) && Genuine(s.log, r)
    ensures SamePayload(s, r)
  {
    forall stored | stored in s.world.rows && stored.stream == r.stream && stored.num == r.num
      ensures stored.kind == r.frame.kind && stored.hash == Recording.PayloadHash(r.frame.kind, r.frame.data)
    {
      assert GenuineStored(s.log, stored);
    }
  }

  // The server has a row of this stream and number with this payload hash.
  ghost predicate OnServer(rows: seq<Recording.Stored>, r: Spool.Row) {
    exists stored :: stored in rows && stored.stream == r.stream && stored.num == r.num
                     && stored.hash == Recording.PayloadHash(r.frame.kind, r.frame.data)
  }

  lemma StoredBelowFrontier(s: Sys, r: Spool.Row)
    requires ServerInv(s) && Genuine(s.log, r)
    requires r.num <= Recording.Frontier(s.world.rows, r.stream)
    ensures OnServer(s.world.rows, r)
  {
    Recording.LedgerExact(s.world.rows, r.stream);
    assert r.num in Recording.Nums(s.world.rows, r.stream);
    var stored :| stored in s.world.rows && stored.stream == r.stream && stored.num == r.num;
    assert GenuineStored(s.log, stored);
  }

  lemma RemovedIsStored(s: Sys, a: Action, r: Spool.Row)
    requires SysInv(s)
    requires r in s.sup.spool.rows && r !in Step(s, a).sup.spool.rows
    ensures OnServer(s.world.rows, r)
  {
    OnlyReadsRemove(s, a, r);
    var c := s.conns[a.c];
    var m := c.up[0];
    assert ConnOk(s, c) && MessageOk(s, m);
    AckRemoves(s.sup, m.ord, r);
    assert Genuine(s.log, r);
    StoredBelowFrontier(s, r);
  }

  lemma AckRemoves(sup: Sender.Sup, ord: nat, r: Spool.Row)
    requires Sender.SupInv(sup)
    requires r in sup.spool.rows && r !in Sender.ApplyAck(sup, Sender.RowId(ord)).spool.rows
    ensures r.ord == ord
  {
    Sender.AckOrdRemoves(sup.spool, ord);
  }

  // Nothing leaves the spool before it is stored: a row that a step removes is on
  // the server, with its payload hash.
  lemma LeavesOnlyWhenStored(actions: seq<Action>, a: Action, r: Spool.Row)
    requires var s := Run(INIT, actions);
             r in s.sup.spool.rows && r !in Step(s, a).sup.spool.rows
    ensures OnServer(Run(INIT, actions).world.rows, r)
  {
    InitInv();
    RunInv(INIT, actions);
    RemovedIsStored(Run(INIT, actions), a, r);
  }

  lemma DrainKeepsRows(s: Sys)
    requires SpoolInv(s)
    ensures DrainStep(s).sup.spool == s.sup.spool
  {
    if Sender.Running(s.sup) {
      Sender.ResumeEffect(s.sup);
    }
  }

  // The drain loop and every other step but a read of an acknowledgement keep the rows.
  lemma OthersKeepRows(s: Sys, a: Action, r: Spool.Row)
    requires SpoolInv(s) && !a.SupervisorRead? && r in s.sup.spool.rows
    ensures r in Step(s, a).sup.spool.rows
  {
    DrainKeepsRows(s);
  }

  lemma OnlyReadsRemove(s: Sys, a: Action, r: Spool.Row)
    requires SysInv(s)
    requires r in s.sup.spool.rows && r !in Step(s, a).sup.spool.rows
    ensures a.SupervisorRead? && a.c < |s.conns| && s.conns[a.c].up != []
    ensures s.conns[a.c].up[0].DeliveryAck?
    ensures Step(s, a).sup == Sender.ApplyAck(s.sup, Sender.RowId(s.conns[a.c].up[0].ord))
  {
    if a.SupervisorRead? {
      assert s.conns[a.c].up != [];
      FirstMessage(s, s.conns[a.c]);
    } else {
      OthersKeepRows(s, a, r);
    }
  }
}
