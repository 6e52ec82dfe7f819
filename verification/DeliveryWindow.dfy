// The delivery half of SessionSupervisor: the object whose fields the drain task
// and the control handler update in place. Every method is one stretch of code
// between two awaits and is proved to be the corresponding step of module Sender.
module DeliveryWindow {
  import opened Common
  import opened Spool
  import opened Ipc
  import opened SpoolStores
  import opened Sender

  datatype Paused =
    | Sending(what: Delivery)
    | Failed                  // the row was too large for the channel, and the task ended
    | AwaitingEvent
    | NotAwaiting

  function PausedAt(step: Step): Paused {
    match step
    case Sends(_, what) => Sending(what)
    case Raises(_, _) => Failed
    case Waits(_) => AwaitingEvent
    case Spins(_) => NotAwaiting
  }

  class Window {
    const spool: DiskSpool

    var controls: seq<Control>
    var nextControlId: nat
    var inflightIds: seq<Slot>      // the dict, in insertion order
    var inflightBytes: int
    var pendingEvent: bool
    var drain: Drain
    ghost var hiRow: nat
    ghost var hiControl: nat

    ghost function Model(): Sup
      reads this, spool
    {
      Sup(spool.Model(), controls, nextControlId, inflightIds, inflightBytes, pendingEvent, drain, hiRow, hiControl)
    }

    ghost predicate Valid()
      reads this, spool
    {
      spool.Valid() && spool.isOpen && SupInv(Model())
    }

    // Rows recovered from an earlier run are eligible at once.
    constructor (spool: DiskSpool)
      requires spool.Valid() && spool.isOpen
      ensures Valid() && this.spool == spool
      ensures Model() == Start(spool.Model())
    {
      this.spool := spool;
      controls, nextControlId, inflightIds, inflightBytes := [], 0, [], 0;
      pendingEvent := |spool.outbox| > 0;
      drain := Detached;
      hiRow, hiControl := 0, 0;
      new;
      StartInv(spool.Model());
    }

    method AttachChannel()
      requires Valid()
      modifies this
      ensures Valid() && Model() == Attach(old(Model()))
    {
      AttachInv(Model());
      inflightIds := [];
      inflightBytes := 0;
      if controls != [] || spool.outbox != [] {
        pendingEvent := true;
      }
      drain := AtTop;
      hiRow, hiControl := 0, 0;
    }

    method DetachChannel()
      requires Valid()
      modifies this
      ensures Valid() && Model() == Detach(old(Model()))
    {
      drain := Detached;
    }

    method EmitOutputFrame(frame: Frame) returns (r: Result<nat>)
      requires Valid()
      modifies this, spool
      ensures Valid()
      ensures r.Ok? <==> Routable(frame)
      ensures r.Err? ==> Model() == old(Model())
      ensures r.Ok? ==> Model() == EmitOutput(old(Model()), frame, spool.measure(frame.Emitted(), r.value))
    {
      ghost var before := Model();
      r := spool.EnqueueOutput(frame, false);
      if r.Err? {
        return;
      }
      EmitOutputInv(before, frame, spool.measure(frame.Emitted(), r.value));
      pendingEvent := true;
    }

    method EmitControlFrame(agentId: string)
      requires Valid()
      modifies this
      ensures Valid() && Model() == EmitControl(old(Model()), agentId)
    {
      EmitControlInv(Model(), agentId);
      nextControlId := nextControlId + 1;
      controls := controls + [Control(nextControlId, agentId)];
      pendingEvent := true;
    }

    // Drops one delivery from the window and re-arms the sender.
    method ReleaseInflight(id: DeliveryId)
      requires DistinctIds(inflightIds)
      modifies this`inflightIds, this`inflightBytes, this`pendingEvent
      ensures Model() == Release(old(Model()), id)
    {
      var slots := inflightIds;
      var size := 0;
      for i := 0 to |slots|
        invariant unchanged(this)
        invariant size == TotalSize(slots[..i]) - TotalSize(Drop(slots[..i], id))
        invariant InFlight(slots[..i], id) || size == 0
      {
        assert slots[..i + 1] == slots[..i] + [slots[i]];
        DropAppend(slots[..i], slots[i], id);
        SlotsAppend(slots[..i], slots[i]);
        SlotsAppend(Drop(slots[..i], id), slots[i]);
        if slots[i].id == id {
          assert !InFlight(slots[..i], id);
          size := slots[i].size;
        }
      }
      assert slots[..|slots|] == slots;
      inflightIds := Drop(slots, id);
      inflightBytes := inflightBytes - size;
      pendingEvent := true;
    }

    method ApplyDeliveryAck(id: DeliveryId)
      requires Valid()
      modifies this, spool
      ensures Valid() && Model() == ApplyAck(old(Model()), id)
    {
      ghost var before := Model();
      ApplyAckInv(before, id);
      if !InFlight(inflightIds, id) {
        return;
      }
      if id.ControlId? {
        // Controls are acknowledged in order: only the head is released.
        if controls == [] || controls[0].id != id.id {
          return;
        }
        controls := controls[1..];
        ReleaseInflight(id);
        return;
      }
      var acked := spool.AckByOrd(id.ord, false);
      if acked == Ok(true) {
        ReleaseInflight(id);
      }
    }

    method StillThere(id: DeliveryId) returns (valid: bool)
      ensures valid == Present(Model(), id)
    {
      valid := match id
        case ControlId(n) => exists j :: 0 <= j < |controls| && controls[j].id == n
        case RowId(ord) => exists j :: 0 <= j < |spool.outbox| && spool.outbox[j].ord == ord;
    }

    // Drops in-flight ids whose row or control was purged.
    method ReconcileInflight()
      requires spool.Valid() && DistinctIds(inflightIds)
      modifies this`inflightIds, this`inflightBytes
      ensures Model() == Reconcile(old(Model()))
    {
      ghost var s := Model();
      var all := inflightIds;
      var kept, freed := [], 0;
      for i := 0 to |all|
        invariant unchanged(this) && unchanged(spool)
        invariant kept == KeepPresent(s, all[..i])
        invariant freed == TotalSize(all[..i]) - TotalSize(kept)
      {
        assert all[..i + 1] == all[..i] + [all[i]];
        KeepAppend(s, all[..i], all[i]);
        SlotsAppend(all[..i], all[i]);
        var valid := StillThere(all[i].id);
        if valid {
          SlotsAppend(kept, all[i]);
          kept := kept + [all[i]];
        } else {
          freed := freed + all[i].size;
        }
      }
      assert all[..|all|] == all;
      inflightIds := kept;
      inflightBytes := inflightBytes - freed;
    }

    method HandleFence(key: Stream)
      requires Valid()
      modifies this, spool
      ensures Valid() && Model() == FenceStream(old(Model()), key)
    {
      FenceInv(Model(), key);
      var removed := spool.FenceStream(key, false);
      ReconcileInflight();
      pendingEvent := true;
    }

    // The streams of removed agents that still have pending rows.
    method PendingStreams(agents: set<string>) returns (streams: seq<Stream>)
      ensures streams == StreamsOf(spool.outbox, agents)
    {
      var rows := spool.outbox;
      streams := [];
      assert rows[0..] == rows;
      for i := 0 to |rows|
        invariant StreamsOf(rows, agents) == streams + StreamsOf(rows[i..], agents)
      {
        assert rows[i..][1..] == rows[i + 1..];
        if rows[i].frame.agentId in agents {
          streams := streams + [rows[i].frame.WireStream()];
        }
      }
    }

    method FenceStreams(streams: seq<Stream>)
      requires spool.Valid() && spool.isOpen
      modifies spool
      ensures spool.Valid() && spool.isOpen
      ensures spool.Model() == FenceAll(old(spool.Model()), streams)
    {
      assert streams[0..] == streams;
      for i := 0 to |streams|
        invariant spool.Valid() && spool.isOpen
        invariant FenceAll(old(spool.Model()), streams) == FenceAll(spool.Model(), streams[i..])
      {
        assert streams[i..][1..] == streams[i + 1..];
        var removed := spool.FenceStream(streams[i], false);
      }
    }

    method KeptControls(agents: set<string>) returns (kept: seq<Control>)
      ensures kept == KeepControls(controls, agents)
    {
      kept := [];
      assert controls[0..] == controls;
      for i := 0 to |controls|
        invariant KeepControls(controls, agents) == kept + KeepControls(controls[i..], agents)
      {
        assert controls[i..][1..] == controls[i + 1..];
        if controls[i].agentId !in agents {
          kept := kept + [controls[i]];
        }
      }
    }

    // Agents that leave the directory take their streams and controls with them.
    method DropAgents(agents: set<string>, registered: seq<Stream>)
      requires Valid()
      modifies this, spool
      ensures Valid() && Model() == RemoveAgents(old(Model()), agents, registered)
    {
      RemoveAgentsInv(Model(), agents, registered);
      var streams := PendingStreams(agents);
      FenceStreams(streams + registered);
      controls := KeptControls(agents);
      ReconcileInflight();
    }

    method AnySendable() returns (found: bool)
      requires Valid()
      ensures found == HasSendable(Model())
    {
      if |inflightIds| >= MAX_INFLIGHT_FRAMES {
        return false;
      }
      for i := 0 to |controls|
        invariant forall j :: 0 <= j < i ==> InFlight(inflightIds, ControlId(controls[j].id))
      {
        if !InFlight(inflightIds, ControlId(controls[i].id)) {
          return true;
        }
      }
      for i := 0 to |spool.outbox|
        invariant forall j :: 0 <= j < i ==> InFlight(inflightIds, RowId(spool.outbox[j].ord))
      {
        if !InFlight(inflightIds, RowId(spool.outbox[i].ord)) {
          return true;
        }
      }
      found := false;
    }

    // Sends the first control of the snapshot that is not in flight, if the
    // window has room for it.
    method TryControl(snapshot: seq<Control>, ghost sentAny: bool) returns (paused: Option<Paused>)
      modifies this`inflightIds, this`drain, this`hiControl
      ensures paused.Some? ==>
                var step := ScanControls(old(Model()), snapshot, sentAny);
                step.next == Model() && PausedAt(step) == paused.value
      ensures paused.None? ==>
                && Model() == old(Model())
                && ScanControls(Model(), snapshot, sentAny) == ScanRows(Model(), spool.outbox, sentAny)
    {
      ghost var s := Model();
      var rest := snapshot;
      while rest != [] && InFlight(inflightIds, ControlId(rest[0].id))
        invariant unchanged(this)
        invariant ScanControls(s, snapshot, sentAny) == ScanControls(s, rest, sentAny)
        decreases |rest|
      {
        rest := rest[1..];
      }
      if rest == [] || |inflightIds| >= MAX_INFLIGHT_FRAMES {
        return None;
      }
      var id := ControlId(rest[0].id);
      inflightIds := inflightIds + [Slot(id, 0)];
      drain := InControls(rest[1..]);
      hiControl := rest[0].id;
      paused := Some(Sending(ControlDelivery(rest[0])));
    }

    // The snapshot from its first row on that is not in flight.
    method SkipInFlight(snapshot: seq<Row>, ghost sentAny: bool) returns (rest: seq<Row>)
      ensures ScanRows(Model(), snapshot, sentAny) == ScanRows(Model(), rest, sentAny)
      ensures rest != [] ==> !InFlight(inflightIds, RowId(rest[0].ord))
    {
      rest := snapshot;
      while rest != [] && InFlight(inflightIds, RowId(rest[0].ord))
        invariant ScanRows(Model(), snapshot, sentAny) == ScanRows(Model(), rest, sentAny)
        decreases |rest|
      {
        rest := rest[1..];
      }
    }

    // Books a row and sends it. One the channel refuses ends the task.
    method SendNext(row: Row, rest: seq<Row>) returns (paused: Paused)
      modifies this`inflightIds, this`inflightBytes, this`drain, this`hiRow
      ensures var step := SendRow(old(Model()), row, rest);
              Model() == step.next && paused == PausedAt(step)
    {
      var size := |row.frame.data|;
      inflightIds := inflightIds + [Slot(RowId(row.ord), size)];
      inflightBytes := inflightBytes + size;
      hiRow := row.ord;
      var encoded := EncodeDelivery(row);
      if encoded.Err? {
        drain := Detached;
        return Failed;
      }
      drain := InRows(rest);
      paused := Sending(RowDelivery(row));
    }

    // Sends the first row of the snapshot that is not in flight, if both bounds
    // admit it or nothing is in flight.
    method TryRow(snapshot: seq<Row>, ghost sentAny: bool) returns (paused: Option<Paused>)
      modifies this`inflightIds, this`inflightBytes, this`drain, this`hiRow
      ensures paused.Some? ==>
                var step := ScanRows(old(Model()), snapshot, sentAny);
                step.next == Model() && PausedAt(step) == paused.value
      ensures paused.None? ==>
                && Model() == old(Model())
                && ScanRows(Model(), snapshot, sentAny) == EndPass(Model(), sentAny)
    {
      var rest := SkipInFlight(snapshot, sentAny);
      if rest == [] {
        return None;
      }
      if inflightIds != []
         && (|inflightIds| >= MAX_INFLIGHT_FRAMES || inflightBytes + |rest[0].frame.data| > MAX_INFLIGHT_BYTES) {
        return None;
      }
      var sent := SendNext(rest[0], rest[1..]);
      paused := Some(sent);
    }

    // One pass from the controls on: at most one delivery is made.
    method TryPass(snapshot: seq<Control>, ghost sentAny: bool) returns (paused: Option<Paused>)
      modifies this`inflightIds, this`inflightBytes, this`drain, this`hiControl, this`hiRow
      ensures paused.Some? ==>
                var step := ScanControls(old(Model()), snapshot, sentAny);
                step.next == Model() && PausedAt(step) == paused.value
      ensures paused.None? ==>
                && Model() == old(Model())
                && ScanControls(Model(), snapshot, sentAny) == EndPass(Model(), sentAny)
    {
      paused := TryControl(snapshot, sentAny);
      if paused.None? {
        paused := TryRow(spool.outbox, sentAny);
      }
    }

    // What is left of the present pass, and one more if it has sent something: a task
    // suspended inside a scan has.
    method Passes() returns (paused: Option<Paused>)
      requires Running(Model())
      modifies this`inflightIds, this`inflightBytes, this`drain, this`hiControl, this`hiRow
      ensures paused.Some? ==>
                var step := Resume(old(Model()));
                step.next == Model() && PausedAt(step) == paused.value
      ensures paused.None? ==> Model() == old(Model()) && Resume(Model()) == EndPass(Model(), false)
    {
      var sentAny := !drain.AtTop?;
      if drain.InRows? {
        paused := TryRow(drain.rows, true);
      } else {
        paused := TryPass(if drain.InControls? then drain.controls else controls, sentAny);
      }
      if paused.None? && sentAny {
        paused := TryPass(controls, false);
      }
    }

    // Runs the drain loop up to its next await.
    method Continue() returns (paused: Paused)
      requires Valid() && Running(Model())
      modifies this
      ensures Valid()
      ensures Model() == Resume(old(Model())).next && paused == PausedAt(Resume(old(Model())))
    {
      ResumeInv(Model());
      var stop := Passes();
      if stop.Some? {
        return stop.value;
      }
      var more := AnySendable();
      pendingEvent := false;
      drain := if more then AtTop else Drain.Waiting;
      return if more then NotAwaiting else AwaitingEvent;
    }
  }

  lemma {:induction false} DropAppend(slots: seq<Slot>, e: Slot, id: DeliveryId)
    ensures Drop(slots + [e], id)
         == if InFlight(slots, id) then Drop(slots, id) + [e]
            else if e.id == id then slots
            else slots + [e]
    ensures !InFlight(slots, id) ==> Drop(slots, id) == slots
  {
    if slots == [] {
      assert slots + [e] == [e];
    } else {
      assert (slots + [e])[1..] == slots[1..] + [e];
      DropAppend(slots[1..], e, id);
      if slots[0].id == id {
        assert InFlight(slots, id);
      } else {
        if InFlight(slots, id) {
          var i :| 0 <= i < |slots| && slots[i].id == id;
          assert slots[1..][i - 1].id == id;
        }
        if InFlight(slots[1..], id) {
          var i :| 0 <= i < |slots| - 1 && slots[1..][i].id == id;
          assert slots[i + 1].id == id;
        }
      }
    }
  }

  lemma {:induction false} KeepAppend(s: Sup, slots: seq<Slot>, e: Slot)
    ensures KeepPresent(s, slots + [e]) == KeepPresent(s, slots) + (if Present(s, e.id) then [e] else [])
  {
    if slots == [] {
      assert slots + [e] == [e];
    } else {
      assert (slots + [e])[1..] == slots[1..] + [e];
      KeepAppend(s, slots[1..], e);
    }
  }
}
