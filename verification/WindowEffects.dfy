// What each event does to the delivery window, in terms of rows, controls and ids.
module WindowEffects {
  import opened Common
  import opened Spool
  import opened Ipc
  import opened Sender
  import opened SenderProgress

  // Attaching forgets what is in flight, so that everything pending is offered again from
  // the first row on, and arms the loop if anything is.
  lemma AttachReplays(s: Sup)
    ensures var t := Attach(s);
            && t.inflight == [] && t.inflightBytes == 0 && t.drain.AtTop?
            && t.spool == s.spool && t.controls == s.controls && t.lastControl == s.lastControl
            && (t.event <==> s.event || s.controls != [] || s.spool.rows != [])
    ensures HasSendable(Attach(s)) <==> s.controls != [] || s.spool.rows != []
  {
    var t := Attach(s);
    if s.controls != [] {
      assert !InFlight(t.inflight, ControlId(t.controls[0].id));
    } else if s.spool.rows != [] {
      assert !InFlight(t.inflight, RowId(t.spool.rows[0].ord));
    }
  }

  // Detaching stops the loop and touches nothing else.
  lemma DetachStops(s: Sup)
    ensures Detach(s).drain.Detached? && Detach(s) == s.(drain := Detach(s).drain)
  {
  }

  // Output and controls go to the end of their queues under fresh ids, and wake the loop.
  lemma EmitQueues(s: Sup, f: Frame, bytes: nat, agentId: string)
    requires SupInv(s)
    ensures var t := EmitOutput(s, f, bytes); var n := |s.spool.rows|;
            && |t.spool.rows| == n + 1 && t.spool.rows[..n] == s.spool.rows
            && t.spool.rows[n].frame == f.(spoolSid := None, spoolPid := None) && t.spool.rows[n].stream == f.Identity()
            && (forall r :: r in s.spool.rows ==> r.ord < t.spool.rows[n].ord)
            && t == s.(spool := t.spool, event := true)
    ensures var t := EmitControl(s, agentId); var n := |s.controls|;
            && |t.controls| == n + 1 && t.controls[..n] == s.controls && t.controls[n].agentId == agentId
            && (forall c :: c in s.controls ==> c.id < t.controls[n].id)
            && t == s.(controls := t.controls, lastControl := t.controls[n].id, event := true)
  {
  }

  // The oldest pending row of its stream.
  ghost predicate Oldest(rows: seq<Row>, r: Row) {
    r in rows && forall q :: q in rows && q.stream == r.stream ==> r.ord <= q.ord
  }

  // An acknowledgement counts if and only if its delivery is in flight and is the first
  // control, or the oldest pending row of its stream. It then removes exactly that delivery
  // from its queue and from the window, and wakes the loop; otherwise nothing happens.
  lemma AckReleases(s: Sup, id: DeliveryId)
    requires SupInv(s)
    ensures var t := ApplyAck(s, id);
            var counts := InFlight(s.inflight, id)
                          && match id
                             case ControlId(n) => s.controls != [] && s.controls[0].id == n
                             case RowId(ord) => exists r :: Oldest(s.spool.rows, r) && r.ord == ord;
            && (!counts ==> t == s)
            && (counts ==>
                  && (forall x :: InFlight(t.inflight, x) <==> InFlight(s.inflight, x) && x != id)
                  && t.inflightBytes == TotalSize(t.inflight) && t.event
                  && t.controls == (if id.ControlId? then s.controls[1..] else s.controls)
                  && (forall r :: r in t.spool.rows <==> r in s.spool.rows && id != RowId(r.ord))
                  && t == s.(spool := t.spool, controls := t.controls, inflight := t.inflight,
                             inflightBytes := t.inflightBytes, event := true))
  {
    ApplyAckInv(s, id);
    DropMeans(s.inflight, id);
    match id
    case ControlId(_) =>
    case RowId(ord) =>
      AckCounts(s.spool, ord);
      if AcksOrd(s.spool, ord) {
        AckOrdRemoves(s.spool, ord);
      }
  }

  lemma AckCounts(spool: State, ord: nat)
    requires Inv(spool)
    ensures AcksOrd(spool, ord) <==> exists r :: Oldest(spool.rows, r) && r.ord == ord
  {
    FindMeans(spool.rows, ord);
    if Find(spool.rows, ord).Some? {
      var row := Find(spool.rows, ord).value;
      var lane := Lane(spool.rows, row.stream);
      LaneMembers(spool.rows, row.stream);
      LaneOrdered(spool.rows, row.stream);
      assert Contiguous(lane, Lookup(spool.acked, row.stream));
      var i :| 0 <= i < |lane| && lane[i] == row;
      assert lane[0] in lane;
      assert i == 0 ==> Oldest(spool.rows, row);
    }
  }

  // A fence drops the rows of its stream, frees their slots and those of nothing that is
  // still there, and wakes the loop.
  lemma FencePurges(s: Sup, k: Stream)
    requires SupInv(s)
    ensures var t := FenceStream(s, k);
            && (forall r :: r in t.spool.rows <==> r in s.spool.rows && r.stream != k)
            && t.controls == s.controls && t.event && t.drain == s.drain
            && (forall x :: InFlight(t.inflight, x)
                  <==> InFlight(s.inflight, x)
                       && match x
                          case ControlId(n) => exists c :: c in s.controls && c.id == n
                          case RowId(ord) => exists r :: r in s.spool.rows && r.stream != k && r.ord == ord)
            && t.inflightBytes == TotalSize(t.inflight)
  {
    FenceInv(s, k);
    var p := s.(spool := Fence(s.spool, k));
    WithoutMembers(s.spool.rows, k);
    KeepMeans(p, s.inflight);
    forall x
      ensures Present(p, x) <==> match x
                                 case ControlId(n) => exists c :: c in s.controls && c.id == n
                                 case RowId(ord) => exists r :: r in s.spool.rows && r.stream != k && r.ord == ord
    {
      PresentMeans(p, x);
    }
  }

  // Removing agents takes every stream along that has a pending row of theirs or is
  // registered for them, and their controls; the slots of what is gone are freed, and the
  // event stays as it was.
  lemma RemovalPurges(s: Sup, agents: set<string>, registered: seq<Stream>)
    requires SupInv(s)
    ensures var t := RemoveAgents(s, agents, registered);
            && (forall r :: r in t.spool.rows
                  <==> r in s.spool.rows && r.stream !in registered
                       && forall q :: q in s.spool.rows && q.frame.agentId in agents ==> q.frame.WireStream() != r.stream)
            && (forall c :: c in t.controls <==> c in s.controls && c.agentId !in agents)
            && (forall x :: InFlight(t.inflight, x)
                  <==> InFlight(s.inflight, x)
                       && match x
                          case ControlId(n) => exists c :: c in t.controls && c.id == n
                          case RowId(ord) => exists r :: r in t.spool.rows && r.ord == ord)
            && t.inflightBytes == TotalSize(t.inflight) && t.event == s.event && t.drain == s.drain
  {
    RemoveAgentsInv(s, agents, registered);
    StreamsOfMeans(s.spool.rows, agents);
    FenceAllMeans(s.spool, Removed(s, agents, registered));
    KeepControlsMembers(s.controls, agents);
    var p := Purged(s, agents, registered);
    KeepMeans(p, s.inflight);
    forall x
      ensures Present(p, x) <==> match x
                                 case ControlId(n) => exists c :: c in p.controls && c.id == n
                                 case RowId(ord) => exists r :: r in p.spool.rows && r.ord == ord
    {
      PresentMeans(p, x);
    }
  }

  // A restart keeps the spool and nothing else, and is armed if a row is pending.
  lemma StartArms(spool: State)
    ensures var s := Start(spool);
            && s.spool == spool && s.controls == [] && s.inflight == [] && s.inflightBytes == 0 && s.drain.Detached?
            && (s.event <==> spool.rows != [])
  {
  }

  // The event wakes a waiting loop, and only that.
  lemma WakeResumes(s: Sup)
    ensures if s.drain.Waiting? && s.event then Wake(s).drain.AtTop? && Wake(s) == s.(drain := Wake(s).drain) else Wake(s) == s
  {
  }

  // Row n is the first one that is not in flight.
  ghost predicate FirstUnsentRow(s: Sup, n: nat) {
    && n < |s.spool.rows| && !InFlight(s.inflight, RowId(s.spool.rows[n].ord))
    && forall i :: 0 <= i < n ==> InFlight(s.inflight, RowId(s.spool.rows[i].ord))
  }

  ghost predicate FirstUnsentControl(s: Sup, n: nat) {
    && n < |s.controls| && !InFlight(s.inflight, ControlId(s.controls[n].id))
    && forall i :: 0 <= i < n ==> InFlight(s.inflight, ControlId(s.controls[i].id))
  }

  // What a step that takes something takes: the first unsent control, or, with no control
  // left or no place for it, the first unsent row, the one booked with its own size.
  ghost predicate TakesFirst(s: Sup, step: Step) {
    match step
    case Sends(t, ControlDelivery(c)) =>
      (exists n: nat :: FirstUnsentControl(s, n) && s.controls[n] == c) && t.inflight == s.inflight + [Slot(ControlId(c.id), 0)]
    case Sends(t, RowDelivery(r)) =>
      (exists n: nat :: FirstUnsentRow(s, n) && s.spool.rows[n] == r)
      && t.inflight == s.inflight + [Slot(RowId(r.ord), |r.frame.data|)]
    case Raises(t, r) =>
      (exists n: nat :: FirstUnsentRow(s, n) && s.spool.rows[n] == r)
      && t.inflight == s.inflight + [Slot(RowId(r.ord), |r.frame.data|)]
    case Waits(t) => t == s.(event := false, drain := t.drain) && t.drain.Waiting?
    case Spins(t) => t == s.(event := false, drain := t.drain) && t.drain.AtTop?
  }

  lemma {:induction false} RowsTakeFirst(s: Sup, n: nat)
    requires n <= |s.spool.rows| && forall i :: 0 <= i < n ==> InFlight(s.inflight, RowId(s.spool.rows[i].ord))
    ensures TakesFirst(s, ScanRows(s, s.spool.rows[n..], false))
    decreases |s.spool.rows| - n
  {
    var rest := s.spool.rows[n..];
    if rest != [] {
      assert rest[0] == s.spool.rows[n] && rest[1..] == s.spool.rows[n + 1..];
      if InFlight(s.inflight, RowId(rest[0].ord)) {
        RowsTakeFirst(s, n + 1);
      } else if WindowFull(s, rest[0]) {
        assert ScanRows(s, rest, false) == EndPass(s, false);
        EndTakes(s);
      } else {
        assert FirstUnsentRow(s, n);
        assert ScanRows(s, rest, false) == SendRow(s, rest[0], rest[1..]);
      }
    } else {
      EndTakes(s);
    }
  }

  lemma EndTakes(s: Sup)
    ensures TakesFirst(s, EndPass(s, false))
  {
  }

  lemma {:induction false} ControlsTakeFirst(s: Sup, n: nat)
    requires n <= |s.controls| && forall i :: 0 <= i < n ==> InFlight(s.inflight, ControlId(s.controls[i].id))
    ensures TakesFirst(s, ScanControls(s, s.controls[n..], false))
    decreases |s.controls| - n
  {
    var rest := s.controls[n..];
    assert s.spool.rows[0..] == s.spool.rows;
    if rest != [] && InFlight(s.inflight, ControlId(rest[0].id)) {
      assert rest[0] == s.controls[n] && rest[1..] == s.controls[n + 1..];
      ControlsTakeFirst(s, n + 1);
    } else {
      RowsTakeFirst(s, 0);
      assert rest != [] ==> FirstUnsentControl(s, n);
    }
  }

  // A fresh pass takes the first thing there is.
  lemma PassTakesFirst(s: Sup)
    requires s.drain.AtTop?
    ensures TakesFirst(s, Resume(s))
  {
    assert s.controls[0..] == s.controls;
    ControlsTakeFirst(s, 0);
  }
}
