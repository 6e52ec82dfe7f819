// The supervisor's bounded send window over the spool.
//
// `Sup` is the delivery state of a SessionSupervisor: the spool, the ephemeral
// controls, the in-flight window and where the drain task is suspended. A drain
// task runs from one await to the next; everything between two awaits is one
// atomic call of `Resume`.
module Sender {
  import opened Common
  import opened Spool
  import opened Ipc

  const MAX_INFLIGHT_FRAMES := 64
  const MAX_INFLIGHT_BYTES := 512 * 1024

  datatype Control = Control(id: nat, agentId: string)

  datatype DeliveryId = ControlId(id: nat) | RowId(ord: nat)

  // One entry of the in-flight window: a delivery and the size it was booked with.
  datatype Slot = Slot(id: DeliveryId, size: nat)

  // Where the drain task is suspended. The two scans hold the rest of the
  // snapshot they iterate over. `Detached` is no task at all: nothing is attached,
  // or the task ended when the channel refused a row.
  datatype Drain =
    | Detached
    | AtTop
    | InControls(controls: seq<Control>)
    | InRows(rows: seq<Row>)
    | Waiting

  // `hiRow` and `hiControl` are history: the newest row and control handed to
  // the attached transport, 0 for none since it attached.
  datatype Sup = Sup(
    spool: State,
    controls: seq<Control>,
    lastControl: nat,
    inflight: seq<Slot>,
    inflightBytes: int,
    event: bool,
    drain: Drain,
    hiRow: nat,
    hiControl: nat)

  function Start(spool: State): Sup {
    Sup(spool, [], 0, [], 0, spool.rows != [], Detached, 0, 0)
  }

  // ---- The window ----------------------------------------------------------

  predicate InFlight(slots: seq<Slot>, id: DeliveryId) {
    exists i :: 0 <= i < |slots| && slots[i].id == id
  }

  function TotalSize(slots: seq<Slot>): nat {
    if slots == [] then 0 else slots[0].size + TotalSize(slots[1..])
  }

  function Drop(slots: seq<Slot>, id: DeliveryId): seq<Slot> {
    if slots == [] then []
    else if slots[0].id == id then slots[1..]
    else [slots[0]] + Drop(slots[1..], id)
  }

  function RowSize(r: Row): nat {
    |r.frame.data|
  }

  predicate Present(s: Sup, id: DeliveryId) {
    match id
    case ControlId(n) => exists i :: 0 <= i < |s.controls| && s.controls[i].id == n
    case RowId(ord) => exists i :: 0 <= i < |s.spool.rows| && s.spool.rows[i].ord == ord
  }

  function KeepPresent(s: Sup, slots: seq<Slot>): seq<Slot> {
    if slots == [] then []
    else (if Present(s, slots[0].id) then [slots[0]] else []) + KeepPresent(s, slots[1..])
  }

  // ---- Transitions other than the drain loop ---------------------------------

  function Attach(s: Sup): Sup {
    s.(inflight := [], inflightBytes := 0, drain := AtTop, hiRow := 0, hiControl := 0,
       event := s.event || s.controls != [] || s.spool.rows != [])
  }

  function Detach(s: Sup): Sup {
    s.(drain := Detached)
  }

  function EmitOutput(s: Sup, f: Frame, bytes: nat): Sup {
    s.(spool := Enqueue(s.spool, f, bytes), event := true)
  }

  function EmitControl(s: Sup, agentId: string): Sup {
    s.(controls := s.controls + [Control(s.lastControl + 1, agentId)],
       lastControl := s.lastControl + 1,
       event := true)
  }

  function Release(s: Sup, id: DeliveryId): Sup {
    var kept := Drop(s.inflight, id);
    s.(inflight := kept,
       inflightBytes := s.inflightBytes - (TotalSize(s.inflight) - TotalSize(kept)),
       event := true)
  }

  function ApplyAck(s: Sup, id: DeliveryId): Sup {
    if !InFlight(s.inflight, id) then s
    else
      match id
      case ControlId(n) =>
        if s.controls == [] || s.controls[0].id != n then s
        else Release(s.(controls := s.controls[1..]), id)
      case RowId(ord) =>
        if AcksOrd(s.spool, ord) then Release(s.(spool := AckOrd(s.spool, ord)), id) else s
  }

  function Reconcile(s: Sup): Sup {
    var kept := KeepPresent(s, s.inflight);
    s.(inflight := kept,
       inflightBytes := s.inflightBytes - (TotalSize(s.inflight) - TotalSize(kept)))
  }

  function FenceStream(s: Sup, k: Stream): Sup {
    Reconcile(s.(spool := Fence(s.spool, k))).(event := true)
  }

  function FenceAll(spool: State, streams: seq<Stream>): State
    decreases |streams|
  {
    if streams == [] then spool else FenceAll(Fence(spool, streams[0]), streams[1..])
  }

  // The streams of removed agents that still have pending rows.
  function StreamsOf(rows: seq<Row>, agents: set<string>): seq<Stream> {
    if rows == [] then []
    else (if rows[0].frame.agentId in agents then [rows[0].frame.WireStream()] else []) + StreamsOf(rows[1..], agents)
  }

  function KeepControls(controls: seq<Control>, agents: set<string>): seq<Control> {
    if controls == [] then []
    else (if controls[0].agentId in agents then [] else [controls[0]]) + KeepControls(controls[1..], agents)
  }

  // Agents that leave the directory take their streams and controls with them.
  // `registered` are the streams of their registered sessions.
  function RemoveAgents(s: Sup, agents: set<string>, registered: seq<Stream>): Sup {
    var spool := FenceAll(s.spool, StreamsOf(s.spool.rows, agents) + registered);
    Reconcile(s.(spool := spool, controls := KeepControls(s.controls, agents)))
  }

  // ---- The drain loop --------------------------------------------------------

  // What is handed to the transport.
  datatype Delivery = ControlDelivery(control: Control) | RowDelivery(row: Row)

  datatype Step =
    | Sends(next: Sup, what: Delivery)   // awaits channel.send
    | Raises(next: Sup, row: Row)        // channel.send refuses the row, and the task ends
    | Waits(next: Sup)                   // awaits pending_event
    | Spins(next: Sup)                   // goes round again without awaiting anything

  predicate HasSendable(s: Sup) {
    && |s.inflight| < MAX_INFLIGHT_FRAMES
    && ((exists i :: 0 <= i < |s.controls| && !InFlight(s.inflight, ControlId(s.controls[i].id)))
        || (exists i :: 0 <= i < |s.spool.rows| && !InFlight(s.inflight, RowId(s.spool.rows[i].ord))))
  }

  function SendControl(s: Sup, c: Control, rest: seq<Control>): Step {
    Sends(s.(inflight := s.inflight + [Slot(ControlId(c.id), 0)],
             drain := InControls(rest), hiControl := c.id),
          ControlDelivery(c))
  }

  // The window as it is once a row is booked.
  function Books(s: Sup, r: Row): Sup {
    s.(inflight := s.inflight + [Slot(RowId(r.ord), RowSize(r))],
       inflightBytes := s.inflightBytes + RowSize(r),
       hiRow := r.ord)
  }

  // Books before sending.
  function SendRow(s: Sup, r: Row, rest: seq<Row>): Step {
    if Deliverable(r) then Sends(Books(s, r).(drain := InRows(rest)), RowDelivery(r))
    else Raises(Books(s, r).(drain := Detached), r)
  }

  predicate WindowFull(s: Sup, r: Row) {
    && s.inflight != []
    && (|s.inflight| >= MAX_INFLIGHT_FRAMES || s.inflightBytes + RowSize(r) > MAX_INFLIGHT_BYTES)
  }

  function ScanControls(s: Sup, rest: seq<Control>, sentAny: bool): Step
    decreases sentAny, 2, |rest|
  {
    if rest == [] then ScanRows(s, s.spool.rows, sentAny)
    else if InFlight(s.inflight, ControlId(rest[0].id)) then ScanControls(s, rest[1..], sentAny)
    else if |s.inflight| >= MAX_INFLIGHT_FRAMES then ScanRows(s, s.spool.rows, sentAny)
    else SendControl(s, rest[0], rest[1..])
  }

  function ScanRows(s: Sup, rest: seq<Row>, sentAny: bool): Step
    decreases sentAny, 1, |rest|
  {
    if rest == [] then EndPass(s, sentAny)
    else if InFlight(s.inflight, RowId(rest[0].ord)) then ScanRows(s, rest[1..], sentAny)
    else if WindowFull(s, rest[0]) then EndPass(s, sentAny)
    else SendRow(s, rest[0], rest[1..])
  }

  function EndPass(s: Sup, sentAny: bool): Step
    decreases sentAny, 0, 0
  {
    if sentAny then ScanControls(s, s.controls, false)
    else if HasSendable(s) then Spins(s.(event := false, drain := AtTop))
    else Waits(s.(event := false, drain := Waiting))
  }

  // A task suspended inside a scan has sent something in this pass.
  function Resume(s: Sup): Step
    requires s.drain.AtTop? || s.drain.InControls? || s.drain.InRows?
  {
    match s.drain
    case AtTop => ScanControls(s, s.controls, false)
    case InControls(rest) => ScanControls(s, rest, true)
    case InRows(rest) => ScanRows(s, rest, true)
  }

  // The event wakes a waiting task at the top of its loop.
  function Wake(s: Sup): Sup {
    if s.drain.Waiting? && s.event then s.(drain := AtTop) else s
  }

  // ---- Invariant -------------------------------------------------------------

  function RowSlots(slots: seq<Slot>): nat {
    if slots == [] then 0 else (if slots[0].id.RowId? then 1 else 0) + RowSlots(slots[1..])
  }

  ghost predicate DistinctIds(slots: seq<Slot>) {
    forall i, j :: 0 <= i < j < |slots| ==> slots[i].id != slots[j].id
  }

  // The window's own bookkeeping.
  ghost predicate Booked(s: Sup) {
    && DistinctIds(s.inflight)
    && |s.inflight| <= MAX_INFLIGHT_FRAMES
    && s.inflightBytes == TotalSize(s.inflight)
    && ControlsWeightless(s.inflight)
    && (s.inflightBytes > MAX_INFLIGHT_BYTES ==> RowSlots(s.inflight) == 1)
  }

  ghost predicate OrderedControls(controls: seq<Control>, last: nat) {
    && (forall i, j :: 0 <= i < j < |controls| ==> controls[i].id < controls[j].id)
    && (forall i :: 0 <= i < |controls| ==> 0 < controls[i].id <= last)
  }

  // What is in flight and still there is exactly what was handed over so far.
  ghost predicate Marked(s: Sup) {
    && (forall i :: 0 <= i < |s.spool.rows| ==>
          (InFlight(s.inflight, RowId(s.spool.rows[i].ord)) <==> s.spool.rows[i].ord <= s.hiRow))
    && (forall i :: 0 <= i < |s.controls| ==>
          (InFlight(s.inflight, ControlId(s.controls[i].id)) <==> s.controls[i].id <= s.hiControl))
    && (forall i :: 0 <= i < |s.inflight| ==>
          match s.inflight[i].id
          case RowId(ord) => ord <= s.hiRow
          case ControlId(n) => n <= s.hiControl)
    && s.hiRow <= s.spool.lastOrd
    && s.hiControl <= s.lastControl
  }

  // A suspended scan skips no row that is still pending.
  ghost predicate CoversRows(s: Sup, rest: seq<Row>) {
    && Ordered(rest)
    && (forall i :: 0 <= i < |rest| ==> rest[i].ord <= s.spool.lastOrd)
    && (rest != [] ==>
          forall i :: 0 <= i < |s.spool.rows| && s.hiRow < s.spool.rows[i].ord <= rest[|rest| - 1].ord
            ==> s.spool.rows[i] in rest)
  }

  ghost predicate CoversControls(s: Sup, rest: seq<Control>) {
    && OrderedControls(rest, s.lastControl)
    && (rest != [] ==>
          forall i :: 0 <= i < |s.controls| && s.hiControl < s.controls[i].id <= rest[|rest| - 1].id
            ==> s.controls[i] in rest)
  }

  // While the task is suspended its snapshot holds only deliveries not yet made.
  ghost predicate Suspended(s: Sup) {
    match s.drain
    case InControls(rest) =>
      CoversControls(s, rest) && forall i :: 0 <= i < |rest| ==> s.hiControl < rest[i].id
    case InRows(rest) =>
      CoversRows(s, rest) && forall i :: 0 <= i < |rest| ==> s.hiRow < rest[i].ord
    case _ => true
  }

  ghost predicate Base(s: Sup) {
    && Inv(s.spool)
    && OrderedControls(s.controls, s.lastControl)
    && Booked(s)
    && Marked(s)
  }

  ghost predicate SupInv(s: Sup) {
    Base(s) && Suspended(s)
  }

  // ---- Lemmas about the window -------------------------------------------------

  lemma InFlightCons(e: Slot, slots: seq<Slot>)
    ensures forall x :: InFlight([e] + slots, x) <==> x == e.id || InFlight(slots, x)
  {
    var all := [e] + slots;
    assert all[0].id == e.id;
    forall x | InFlight(slots, x)
      ensures InFlight(all, x)
    {
      var i :| 0 <= i < |slots| && slots[i].id == x;
      assert all[i + 1].id == x;
    }
  }

  lemma DistinctCons(e: Slot, slots: seq<Slot>)
    ensures DistinctIds([e] + slots) <==> DistinctIds(slots) && !InFlight(slots, e.id)
  {
    var all := [e] + slots;
    assert forall i :: 0 <= i < |slots| ==> all[i + 1] == slots[i];
    if DistinctIds(all) {
      forall i | 0 <= i < |slots|
        ensures slots[i].id != e.id
      {
        assert all[0].id != all[i + 1].id;
      }
      forall i, j | 0 <= i < j < |slots|
        ensures slots[i].id != slots[j].id
      {
        assert all[i + 1].id != all[j + 1].id;
      }
    }
  }

  lemma {:induction false} DropMeans(slots: seq<Slot>, id: DeliveryId)
    requires DistinctIds(slots)
    ensures DistinctIds(Drop(slots, id))
    ensures forall x :: InFlight(Drop(slots, id), x) <==> InFlight(slots, x) && x != id
    ensures TotalSize(Drop(slots, id)) <= TotalSize(slots)
    ensures RowSlots(Drop(slots, id)) <= RowSlots(slots)
    ensures InFlight(slots, id) && id.RowId? ==> RowSlots(Drop(slots, id)) == RowSlots(slots) - 1
    ensures InFlight(slots, id) && id.ControlId? ==> RowSlots(Drop(slots, id)) == RowSlots(slots)
    ensures |Drop(slots, id)| == if InFlight(slots, id) then |slots| - 1 else |slots|
    ensures forall e :: e in Drop(slots, id) ==> e in slots
  {
    if slots != [] {
      var e, tail := slots[0], slots[1..];
      assert slots == [e] + tail;
      InFlightCons(e, tail);
      DistinctCons(e, tail);
      if e.id != id {
        DropMeans(tail, id);
        var kept := Drop(tail, id);
        assert ([e] + kept)[1..] == kept;
        InFlightCons(e, kept);
        DistinctCons(e, kept);
      }
    }
  }

  lemma {:induction false} KeepMeans(s: Sup, slots: seq<Slot>)
    requires DistinctIds(slots)
    ensures DistinctIds(KeepPresent(s, slots))
    ensures forall x :: InFlight(KeepPresent(s, slots), x) <==> InFlight(slots, x) && Present(s, x)
    ensures TotalSize(KeepPresent(s, slots)) <= TotalSize(slots)
    ensures RowSlots(KeepPresent(s, slots)) <= RowSlots(slots)
    ensures |KeepPresent(s, slots)| <= |slots|
    ensures forall e :: e in KeepPresent(s, slots) ==> e in slots
  {
    if slots != [] {
      var e, tail := slots[0], slots[1..];
      var kept := KeepPresent(s, tail);
      assert slots == [e] + tail;
      InFlightCons(e, tail);
      DistinctCons(e, tail);
      KeepMeans(s, tail);
      assert KeepPresent(s, slots) == if Present(s, e.id) then [e] + kept else kept;
      assert ([e] + kept)[1..] == kept;
      InFlightCons(e, kept);
      DistinctCons(e, kept);
    }
  }

  // Controls are booked with size 0, so a window without rows weighs nothing.
  ghost predicate ControlsWeightless(slots: seq<Slot>) {
    forall i :: 0 <= i < |slots| && slots[i].id.ControlId? ==> slots[i].size == 0
  }

  lemma {:induction false} NoRowsNoBytes(slots: seq<Slot>)
    requires ControlsWeightless(slots)
    requires RowSlots(slots) == 0
    ensures TotalSize(slots) == 0
  {
    if slots != [] {
      NoRowsNoBytes(slots[1..]);
    }
  }

  lemma {:induction false} SlotsAppend(slots: seq<Slot>, e: Slot)
    ensures TotalSize(slots + [e]) == TotalSize(slots) + e.size
    ensures RowSlots(slots + [e]) == RowSlots(slots) + (if e.id.RowId? then 1 else 0)
    ensures forall x :: InFlight(slots + [e], x) <==> InFlight(slots, x) || x == e.id
  {
    if slots != [] {
      assert (slots + [e])[1..] == slots[1..] + [e];
      SlotsAppend(slots[1..], e);
    }
    forall x
      ensures InFlight(slots + [e], x) <==> InFlight(slots, x) || x == e.id
    {
      if InFlight(slots, x) {
        var i :| 0 <= i < |slots| && slots[i].id == x;
        assert (slots + [e])[i].id == x;
      }
      if x == e.id {
        assert (slots + [e])[|slots|].id == x;
      }
    }
  }

  lemma DistinctAppend(slots: seq<Slot>, e: Slot)
    requires DistinctIds(slots) && !InFlight(slots, e.id)
    ensures DistinctIds(slots + [e])
  {
    forall i, j | 0 <= i < j < |slots + [e]|
      ensures (slots + [e])[i].id != (slots + [e])[j].id
    {
      if j == |slots| {
        assert InFlight(slots, slots[i].id);
      }
    }
  }

  // ---- Every transition keeps the invariant ------------------------------------

  lemma StartInv(spool: State)
    requires Inv(spool)
    ensures SupInv(Start(spool))
  {
  }

  lemma AttachInv(s: Sup)
    requires SupInv(s)
    ensures SupInv(Attach(s))
  {
    assert forall i :: 0 <= i < |s.spool.rows| ==> 0 < s.spool.rows[i].ord;
  }

  lemma EmitOutputInv(s: Sup, f: Frame, bytes: nat)
    requires SupInv(s)
    ensures SupInv(EmitOutput(s, f, bytes))
  {
    EnqueueRefines(s.spool, f, bytes, f.Identity());
    var t := EmitOutput(s, f, bytes);
    forall i | 0 <= i < |t.spool.rows|
      ensures InFlight(t.inflight, RowId(t.spool.rows[i].ord)) <==> t.spool.rows[i].ord <= t.hiRow
    {
      if i < |s.spool.rows| {
        assert t.spool.rows[i] == s.spool.rows[i];
      }
    }
  }

  lemma EmitControlInv(s: Sup, agentId: string)
    requires SupInv(s)
    ensures SupInv(EmitControl(s, agentId))
  {
  }

  lemma ReleaseInv(s: Sup, id: DeliveryId)
    requires Booked(s)
    ensures Booked(Release(s, id))
  {
    DropMeans(s.inflight, id);
    var kept := Drop(s.inflight, id);
    forall i | 0 <= i < |kept| && kept[i].id.ControlId?
      ensures kept[i].size == 0
    {
      assert kept[i] in kept;
    }
    if RowSlots(kept) == 0 {
      NoRowsNoBytes(kept);
    }
  }

  lemma AckControlInv(s: Sup, n: nat)
    requires SupInv(s)
    ensures SupInv(ApplyAck(s, ControlId(n)))
  {
    var id := ControlId(n);
    var t := ApplyAck(s, id);
    if t != s {
      ReleaseInv(s.(controls := s.controls[1..]), id);
      DropMeans(s.inflight, id);
      assert forall i :: 0 <= i < |t.inflight| ==> t.inflight[i] in t.inflight;
      assert forall i :: 0 <= i < |t.controls| ==> t.controls[i] == s.controls[i + 1];
    }
  }

  lemma AckRowInv(s: Sup, ord: nat)
    requires SupInv(s)
    ensures SupInv(ApplyAck(s, RowId(ord)))
  {
    if ApplyAck(s, RowId(ord)) != s {
      AckOrdRefines(s.spool, ord, Stream("", ""));
      AckOrdRemoves(s.spool, ord);
      ReleaseInv(s.(spool := AckOrd(s.spool, ord)), RowId(ord));
      AckedRowMarks(s, AckOrd(s.spool, ord), ord);
    }
  }

  // Without the acknowledged row the marks stand.
  lemma AckedRowMarks(s: Sup, spool: State, ord: nat)
    requires SupInv(s) && Inv(spool) && spool.lastOrd == s.spool.lastOrd
    requires forall r :: r in spool.rows ==> r in s.spool.rows && r.ord != ord
    requires Booked(Release(s.(spool := spool), RowId(ord)))
    ensures SupInv(Release(s.(spool := spool), RowId(ord)))
  {
    DropMeans(s.inflight, RowId(ord));
    var t := Release(s.(spool := spool), RowId(ord));
    assert forall i :: 0 <= i < |t.inflight| ==> t.inflight[i] in t.inflight;
    forall i | 0 <= i < |t.spool.rows|
      ensures t.spool.rows[i] in s.spool.rows && t.spool.rows[i].ord != ord
    {
      assert t.spool.rows[i] in t.spool.rows;
    }
  }

  // A successful acknowledgement by order number removes exactly that row.
  lemma AckOrdRemoves(s: State, ord: nat)
    requires Inv(s)
    requires AcksOrd(s, ord)
    ensures forall r :: r in AckOrd(s, ord).rows <==> r in s.rows && r.ord != ord
    ensures exists r :: r in s.rows && r.ord == ord
    ensures AckOrd(s, ord).lastOrd == s.lastOrd
    ensures |AckOrd(s, ord).rows| == |s.rows| - 1
  {
    FindMeans(s.rows, ord);
    var row := Find(s.rows, ord).value;
    var lane := Lane(s.rows, row.stream);
    assert Contiguous(lane, Lookup(s.acked, row.stream));
    LaneMembers(s.rows, row.stream);
    WithoutFirstMembers(s.rows, row.stream);
    WithoutFirstBytes(s.rows, row.stream);
    assert row in lane;
    var i :| 0 <= i < |lane| && lane[i] == row;
    assert i == 0;
  }

  lemma ApplyAckInv(s: Sup, id: DeliveryId)
    requires SupInv(s)
    ensures SupInv(ApplyAck(s, id))
  {
    match id
    case ControlId(n) => AckControlInv(s, n);
    case RowId(ord) => AckRowInv(s, ord);
  }

  // Reconciling keeps the window consistent with whatever rows and controls remain.
  lemma ReconcileInv(s: Sup)
    requires Booked(s) && Marked(s)
    ensures Booked(Reconcile(s)) && Marked(Reconcile(s))
    ensures forall x :: InFlight(Reconcile(s).inflight, x) ==> Present(s, x)
  {
    KeepMeans(s, s.inflight);
    var kept := KeepPresent(s, s.inflight);
    assert forall i :: 0 <= i < |kept| ==> kept[i] in kept;
    if RowSlots(kept) == 0 {
      NoRowsNoBytes(kept);
    }
    forall i | 0 <= i < |s.spool.rows|
      ensures Present(s, RowId(s.spool.rows[i].ord))
    {}
    forall i | 0 <= i < |s.controls|
      ensures Present(s, ControlId(s.controls[i].id))
    {}
  }

  lemma FenceInv(s: Sup, k: Stream)
    requires SupInv(s)
    ensures SupInv(FenceStream(s, k))
  {
    var t := s.(spool := Fence(s.spool, k));
    FenceKeepsInv(s.spool, k);
    WithoutMembers(s.spool.rows, k);
    forall i | 0 <= i < |t.spool.rows|
      ensures t.spool.rows[i] in s.spool.rows
    {
      assert t.spool.rows[i] in t.spool.rows;
    }
    ReconcileInv(t);
  }

  // ---- The drain loop keeps the invariant ---------------------------------------

  function Next(step: Step): Sup {
    step.next
  }

  lemma SendRowInv(s: Sup, rest: seq<Row>)
    requires Base(s) && CoversRows(s, rest)
    requires rest != [] && !InFlight(s.inflight, RowId(rest[0].ord)) && !WindowFull(s, rest[0])
    requires s.hiRow < rest[0].ord
    ensures SupInv(Next(SendRow(s, rest[0], rest[1..])))
  {
    BooksInv(s, rest);
    SendRowSnapshot(s, rest);
  }

  lemma BooksInv(s: Sup, rest: seq<Row>)
    requires Base(s) && CoversRows(s, rest)
    requires rest != [] && !InFlight(s.inflight, RowId(rest[0].ord)) && !WindowFull(s, rest[0])
    requires s.hiRow < rest[0].ord
    ensures Base(Books(s, rest[0]))
  {
    var r := rest[0];
    var e := Slot(RowId(r.ord), RowSize(r));
    var t := Books(s, r);
    SlotsAppend(s.inflight, e);
    forall i | 0 <= i < |s.spool.rows|
      ensures InFlight(t.inflight, RowId(s.spool.rows[i].ord)) <==> s.spool.rows[i].ord <= r.ord
    {
      var row := s.spool.rows[i];
      if s.hiRow < row.ord <= r.ord {
        assert row in rest;
        var j :| 0 <= j < |rest| && rest[j] == row;
        assert j == 0;
      }
    }
    forall i | 0 <= i < |s.controls|
      ensures InFlight(t.inflight, ControlId(s.controls[i].id)) <==> s.controls[i].id <= s.hiControl
    {}
    DistinctAppend(s.inflight, e);
    if s.inflight == [] {
      assert t.inflight == [e];
    }
  }

  lemma SendRowSnapshot(s: Sup, rest: seq<Row>)
    requires CoversRows(s, rest) && rest != [] && s.hiRow < rest[0].ord
    ensures Suspended(Next(SendRow(s, rest[0], rest[1..])))
  {
    var tail := rest[1..];
    var t := Next(SendRow(s, rest[0], tail));
    forall i | 0 <= i < |s.spool.rows| && tail != [] && rest[0].ord < s.spool.rows[i].ord <= tail[|tail| - 1].ord
      ensures s.spool.rows[i] in tail
    {
      assert tail[|tail| - 1] == rest[|rest| - 1];
      assert s.spool.rows[i] in rest;
      var j :| 0 <= j < |rest| && rest[j] == s.spool.rows[i];
      assert tail[j - 1] == rest[j];
    }
  }

  lemma SendControlInv(s: Sup, rest: seq<Control>)
    requires Base(s) && CoversControls(s, rest)
    requires rest != [] && !InFlight(s.inflight, ControlId(rest[0].id)) && |s.inflight| < MAX_INFLIGHT_FRAMES
    requires s.hiControl < rest[0].id
    ensures SupInv(Next(SendControl(s, rest[0], rest[1..])))
  {
    var c := rest[0];
    var tail := rest[1..];
    var e := Slot(ControlId(c.id), 0);
    var t := Next(SendControl(s, c, tail));
    SlotsAppend(s.inflight, e);
    forall i | 0 <= i < |s.controls|
      ensures InFlight(t.inflight, ControlId(s.controls[i].id)) <==> s.controls[i].id <= c.id
    {
      var control := s.controls[i];
      if s.hiControl < control.id <= c.id {
        assert control in rest;
        var j :| 0 <= j < |rest| && rest[j] == control;
        assert j == 0;
      }
    }
    forall i | 0 <= i < |s.spool.rows|
      ensures InFlight(t.inflight, RowId(s.spool.rows[i].ord)) <==> s.spool.rows[i].ord <= s.hiRow
    {}
    DistinctAppend(s.inflight, e);
    forall i | 0 <= i < |s.controls| && tail != [] && c.id < s.controls[i].id <= tail[|tail| - 1].id
      ensures s.controls[i] in tail
    {
      assert tail[|tail| - 1] == rest[|rest| - 1];
      assert s.controls[i] in rest;
      var j :| 0 <= j < |rest| && rest[j] == s.controls[i];
      assert tail[j - 1] == rest[j];
    }
  }

  // A scan only ever meets deliveries that are in flight or still to be made.
  ghost predicate RowsAhead(s: Sup, rest: seq<Row>) {
    CoversRows(s, rest)
    && forall i :: 0 <= i < |rest| ==>
         s.hiRow < rest[i].ord || InFlight(s.inflight, RowId(rest[i].ord))
  }

  ghost predicate ControlsAhead(s: Sup, rest: seq<Control>) {
    CoversControls(s, rest)
    && forall i :: 0 <= i < |rest| ==>
         s.hiControl < rest[i].id || InFlight(s.inflight, ControlId(rest[i].id))
  }

  lemma RowsAheadSkip(s: Sup, rest: seq<Row>)
    requires Base(s) && RowsAhead(s, rest)
    requires rest != [] && InFlight(s.inflight, RowId(rest[0].ord))
    ensures RowsAhead(s, rest[1..])
  {
    var tail := rest[1..];
    assert rest[0].ord <= s.hiRow;
    forall i | 0 <= i < |s.spool.rows| && tail != [] && s.hiRow < s.spool.rows[i].ord <= tail[|tail| - 1].ord
      ensures s.spool.rows[i] in tail
    {
      assert tail[|tail| - 1] == rest[|rest| - 1];
      var j :| 0 <= j < |rest| && rest[j] == s.spool.rows[i];
      assert tail[j - 1] == rest[j];
    }
  }

  lemma ControlsAheadSkip(s: Sup, rest: seq<Control>)
    requires Base(s) && ControlsAhead(s, rest)
    requires rest != [] && InFlight(s.inflight, ControlId(rest[0].id))
    ensures ControlsAhead(s, rest[1..])
  {
    var tail := rest[1..];
    assert rest[0].id <= s.hiControl;
    forall i | 0 <= i < |s.controls| && tail != [] && s.hiControl < s.controls[i].id <= tail[|tail| - 1].id
      ensures s.controls[i] in tail
    {
      assert tail[|tail| - 1] == rest[|rest| - 1];
      var j :| 0 <= j < |rest| && rest[j] == s.controls[i];
      assert tail[j - 1] == rest[j];
    }
  }

  lemma FreshRowsAhead(s: Sup)
    requires Base(s)
    ensures RowsAhead(s, s.spool.rows)
  {
  }

  lemma FreshControlsAhead(s: Sup)
    requires Base(s)
    ensures ControlsAhead(s, s.controls)
  {
  }

  lemma {:induction false} ScanRowsInv(s: Sup, rest: seq<Row>, sentAny: bool)
    requires Base(s) && RowsAhead(s, rest)
    ensures SupInv(Next(ScanRows(s, rest, sentAny)))
    decreases sentAny, 1, |rest|
  {
    if rest == [] || (!InFlight(s.inflight, RowId(rest[0].ord)) && WindowFull(s, rest[0])) {
      if sentAny {
        FreshControlsAhead(s);
        ScanControlsInv(s, s.controls, false);
      }
    } else if InFlight(s.inflight, RowId(rest[0].ord)) {
      RowsAheadSkip(s, rest);
      ScanRowsInv(s, rest[1..], sentAny);
    } else {
      SendRowInv(s, rest);
    }
  }

  lemma {:induction false} ScanControlsInv(s: Sup, rest: seq<Control>, sentAny: bool)
    requires Base(s) && ControlsAhead(s, rest)
    ensures SupInv(Next(ScanControls(s, rest, sentAny)))
    decreases sentAny, 2, |rest|
  {
    if rest != [] && InFlight(s.inflight, ControlId(rest[0].id)) {
      ControlsAheadSkip(s, rest);
      ScanControlsInv(s, rest[1..], sentAny);
    } else if rest == [] || |s.inflight| >= MAX_INFLIGHT_FRAMES {
      FreshRowsAhead(s);
      ScanRowsInv(s, s.spool.rows, sentAny);
    } else {
      SendControlInv(s, rest);
    }
  }

  lemma ResumeInv(s: Sup)
    requires SupInv(s)
    requires s.drain.AtTop? || s.drain.InControls? || s.drain.InRows?
    ensures SupInv(Next(Resume(s)))
  {
    match s.drain
    case AtTop =>
      FreshControlsAhead(s);
      ScanControlsInv(s, s.controls, false);
    case InControls(rest) => ScanControlsInv(s, rest, true);
    case InRows(rest) => ScanRowsInv(s, rest, true);
  }

  // ---- Removing agents ------------------------------------------------------------

  lemma {:induction false} FenceAllMeans(spool: State, streams: seq<Stream>)
    requires Inv(spool)
    ensures Inv(FenceAll(spool, streams))
    ensures FenceAll(spool, streams).lastOrd == spool.lastOrd
    ensures forall r :: r in FenceAll(spool, streams).rows <==> r in spool.rows && r.stream !in streams
    decreases |streams|
  {
    if streams != [] {
      FenceKeepsInv(spool, streams[0]);
      WithoutMembers(spool.rows, streams[0]);
      FenceAllMeans(Fence(spool, streams[0]), streams[1..]);
      assert forall k :: k in streams <==> k == streams[0] || k in streams[1..];
    }
  }

  lemma {:induction false} KeepControlsMembers(controls: seq<Control>, agents: set<string>)
    ensures forall c :: c in KeepControls(controls, agents) <==> c in controls && c.agentId !in agents
  {
    if controls != [] {
      KeepControlsMembers(controls[1..], agents);
    }
  }

  lemma {:induction false} KeepControlsOrdered(controls: seq<Control>, agents: set<string>, last: nat)
    requires OrderedControls(controls, last)
    ensures OrderedControls(KeepControls(controls, agents), last)
  {
    if controls != [] {
      var tail := controls[1..];
      assert OrderedControls(tail, last);
      KeepControlsOrdered(tail, agents, last);
      KeepControlsMembers(tail, agents);
      if controls[0].agentId !in agents {
        LaterControls(controls, KeepControls(tail, agents), last);
      }
    }
  }

  lemma LaterControls(controls: seq<Control>, kept: seq<Control>, last: nat)
    requires controls != [] && OrderedControls(controls, last) && OrderedControls(kept, last)
    requires forall c :: c in kept ==> c in controls[1..]
    ensures OrderedControls([controls[0]] + kept, last)
  {
    forall i | 0 <= i < |kept|
      ensures controls[0].id < kept[i].id
    {
      assert kept[i] in kept;
      var j :| 0 <= j < |controls[1..]| && controls[1..][j] == kept[i];
      assert controls[j + 1] == kept[i];
    }
  }

  lemma RemoveAgentsInv(s: Sup, agents: set<string>, registered: seq<Stream>)
    requires SupInv(s)
    ensures SupInv(RemoveAgents(s, agents, registered))
  {
    var streams := StreamsOf(s.spool.rows, agents) + registered;
    var spool, controls := FenceAll(s.spool, streams), KeepControls(s.controls, agents);
    FenceAllMeans(s.spool, streams);
    KeepControlsOrdered(s.controls, agents, s.lastControl);
    KeepControlsMembers(s.controls, agents);
    PurgeInv(s, spool, controls);
    ReconciledInv(s.(spool := spool, controls := controls), s);
  }

  lemma ReconciledInv(p: Sup, s: Sup)
    requires SupInv(s) && Inv(p.spool) && OrderedControls(p.controls, p.lastControl) && Booked(p) && Marked(p)
    requires p == s.(spool := p.spool, controls := p.controls) && p.spool.lastOrd == s.spool.lastOrd
    requires forall r :: r in p.spool.rows ==> r in s.spool.rows
    requires forall c :: c in p.controls ==> c in s.controls
    ensures SupInv(Reconcile(p))
  {
    ReconcileInv(p);
    forall i | 0 <= i < |p.spool.rows|
      ensures p.spool.rows[i] in s.spool.rows
    {
      assert p.spool.rows[i] in p.spool.rows;
    }
    forall i | 0 <= i < |p.controls|
      ensures p.controls[i] in s.controls
    {
      assert p.controls[i] in p.controls;
    }
  }

  // Fewer rows and controls leave what is marked as it is.
  lemma PurgeInv(s: Sup, spool: State, controls: seq<Control>)
    requires Booked(s) && Marked(s)
    requires spool.lastOrd == s.spool.lastOrd
    requires forall r :: r in spool.rows ==> r in s.spool.rows
    requires forall c :: c in controls ==> c in s.controls
    ensures Booked(s.(spool := spool, controls := controls)) && Marked(s.(spool := spool, controls := controls))
  {
    forall i | 0 <= i < |spool.rows|
      ensures spool.rows[i] in s.spool.rows
    {
      assert spool.rows[i] in spool.rows;
    }
    forall i | 0 <= i < |controls|
      ensures controls[i] in s.controls
    {
      assert controls[i] in controls;
    }
  }

  // ---- All runs ---------------------------------------------------------------------

  datatype Event =
    | AttachEvent
    | DetachEvent
    | OutputEvent(frame: Frame, bytes: nat)
    | ControlEvent(agentId: string)
    | AckEvent(id: DeliveryId)
    | FenceEvent(stream: Stream)
    | RemoveAgentsEvent(agents: set<string>, registered: seq<Stream>)
    | WakeEvent
    | ResumeEvent
    | RestartEvent

  function Handle(s: Sup, e: Event): Sup {
    match e
    case AttachEvent => Attach(s)
    case DetachEvent => Detach(s)
    case OutputEvent(f, bytes) => EmitOutput(s, f, bytes)
    case ControlEvent(agentId) => EmitControl(s, agentId)
    case AckEvent(id) => ApplyAck(s, id)
    case FenceEvent(k) => FenceStream(s, k)
    case RemoveAgentsEvent(agents, registered) => RemoveAgents(s, agents, registered)
    case WakeEvent => Wake(s)
    case ResumeEvent => if s.drain.Detached? || s.drain.Waiting? then s else Resume(s).next
    case RestartEvent => Start(s.spool)
  }

  function HandleAll(s: Sup, events: seq<Event>): Sup
    decreases |events|
  {
    if events == [] then s else HandleAll(Handle(s, events[0]), events[1..])
  }

  lemma HandleInv(s: Sup, e: Event)
    requires SupInv(s)
    ensures SupInv(Handle(s, e))
  {
    match e
    case AttachEvent => AttachInv(s);
    case OutputEvent(f, bytes) => EmitOutputInv(s, f, bytes);
    case ControlEvent(agentId) => EmitControlInv(s, agentId);
    case AckEvent(id) => ApplyAckInv(s, id);
    case FenceEvent(k) => FenceInv(s, k);
    case RemoveAgentsEvent(agents, registered) => RemoveAgentsInv(s, agents, registered);
    case ResumeEvent => if !(s.drain.Detached? || s.drain.Waiting?) { ResumeInv(s); }
    case _ =>
  }

  lemma {:induction false} HandleAllInv(s: Sup, events: seq<Event>)
    requires SupInv(s)
    ensures SupInv(HandleAll(s, events))
    decreases |events|
  {
    if events != [] {
      HandleInv(s, events[0]);
      HandleAllInv(Handle(s, events[0]), events[1..]);
    }
  }

  // The pending rows that are in flight form a prefix of the pending list.
  ghost predicate InFlightPrefix(s: Sup, n: nat) {
    && n <= |s.spool.rows|
    && forall i :: 0 <= i < |s.spool.rows| ==> (InFlight(s.inflight, RowId(s.spool.rows[i].ord)) <==> i < n)
  }

  lemma {:induction false} MarkedPrefix(s: Sup, n: nat)
    requires SupInv(s) && n <= |s.spool.rows|
    requires forall i :: 0 <= i < n ==> s.spool.rows[i].ord <= s.hiRow
    ensures exists m :: InFlightPrefix(s, m)
    decreases |s.spool.rows| - n
  {
    if n < |s.spool.rows| && s.spool.rows[n].ord <= s.hiRow {
      MarkedPrefix(s, n + 1);
    } else {
      forall i | 0 <= i < |s.spool.rows|
        ensures s.spool.rows[i].ord <= s.hiRow <==> i < n
      {
        if n < i {
          assert s.spool.rows[n].ord < s.spool.rows[i].ord;
        }
      }
      assert InFlightPrefix(s, n);
    }
  }

  // Whatever happens, fences in the middle of a scan included: the window holds
  // at most 64 distinct deliveries, its byte count is the sum of what was booked,
  // it is over the byte bound only while a single row is in flight, and the rows
  // in flight are the oldest pending ones.
  lemma WindowSafety(spool: State, events: seq<Event>)
    requires Inv(spool)
    ensures var s := HandleAll(Start(spool), events);
            && DistinctIds(s.inflight)
            && |s.inflight| <= MAX_INFLIGHT_FRAMES
            && s.inflightBytes == TotalSize(s.inflight)
            && (s.inflightBytes > MAX_INFLIGHT_BYTES ==> RowSlots(s.inflight) == 1)
            && exists n :: InFlightPrefix(s, n)
  {
    StartInv(spool);
    HandleAllInv(Start(spool), events);
    MarkedPrefix(HandleAll(Start(spool), events), 0);
  }

  // ---- What one pass of the loop does -----------------------------------------------

  predicate UnsentControl(s: Sup) {
    exists i :: 0 <= i < |s.controls| && !InFlight(s.inflight, ControlId(s.controls[i].id))
  }

  // The scan stops at its first unsent row when the byte bound does not admit it.
  function FirstUnsent(s: Sup, rows: seq<Row>): Option<Row> {
    if rows == [] then None
    else if InFlight(s.inflight, RowId(rows[0].ord)) then FirstUnsent(s, rows[1..])
    else Some(rows[0])
  }

  predicate ByteBlocked(s: Sup) {
    && !UnsentControl(s)
    && s.inflight != []
    && var first := FirstUnsent(s, s.spool.rows);
       first.Some? && s.inflightBytes + RowSize(first.value) > MAX_INFLIGHT_BYTES
  }

  lemma {:induction false} FirstUnsentMeans(s: Sup, rows: seq<Row>)
    ensures FirstUnsent(s, rows).Some? <==>
              exists i :: 0 <= i < |rows| && !InFlight(s.inflight, RowId(rows[i].ord))
  {
    if rows != [] {
      FirstUnsentMeans(s, rows[1..]);
      if InFlight(s.inflight, RowId(rows[0].ord)) {
        if exists i :: 0 <= i < |rows| && !InFlight(s.inflight, RowId(rows[i].ord)) {
          var i :| 0 <= i < |rows| && !InFlight(s.inflight, RowId(rows[i].ord));
          assert rows[1..][i - 1] == rows[i];
        }
      } else {
        assert !InFlight(s.inflight, RowId(rows[0].ord));
      }
    }
  }

  // The row goes out, or is refused and ends the task.
  predicate Takes(step: Step, r: Row) {
    if Deliverable(r) then step.Sends? && step.what == RowDelivery(r) else step.Raises? && step.row == r
  }

  lemma {:induction false} ScanRowsMeans(s: Sup, rows: seq<Row>)
    ensures var first := FirstUnsent(s, rows);
            if first.Some? && !WindowFull(s, first.value)
            then Takes(ScanRows(s, rows, false), first.value)
            else ScanRows(s, rows, false) == EndPass(s, false)
  {
    if rows != [] && InFlight(s.inflight, RowId(rows[0].ord)) {
      ScanRowsMeans(s, rows[1..]);
    }
  }

  lemma {:induction false} ScanControlsMeans(s: Sup, rest: seq<Control>)
    ensures var unsent := exists i :: 0 <= i < |rest| && !InFlight(s.inflight, ControlId(rest[i].id));
            if unsent && |s.inflight| < MAX_INFLIGHT_FRAMES
            then ScanControls(s, rest, false).Sends? && ScanControls(s, rest, false).what.ControlDelivery?
            else ScanControls(s, rest, false) == ScanRows(s, s.spool.rows, false)
  {
    if rest != [] {
      ScanControlsMeans(s, rest[1..]);
      if InFlight(s.inflight, ControlId(rest[0].id)) {
        if exists i :: 0 <= i < |rest| && !InFlight(s.inflight, ControlId(rest[i].id)) {
          var i :| 0 <= i < |rest| && !InFlight(s.inflight, ControlId(rest[i].id));
          assert rest[1..][i - 1] == rest[i];
        }
      } else {
        assert !InFlight(s.inflight, ControlId(rest[0].id));
      }
    }
  }

  // No control is left to send, and the first unsent row cannot be sent.
  predicate NextRefused(s: Sup) {
    && !UnsentControl(s)
    && var first := FirstUnsent(s, s.spool.rows);
       first.Some? && !Deliverable(first.value)
  }

  // A fresh pass takes the next delivery exactly when something is sendable and the
  // byte bound does not stop it, and ends on it exactly when it is a row too large for
  // the channel. It waits exactly when nothing is sendable, and otherwise goes round
  // without awaiting anything.
  lemma PassOutcomes(s: Sup)
    requires s.drain.AtTop?
    ensures Resume(s).Sends? <==> HasSendable(s) && !ByteBlocked(s) && !NextRefused(s)
    ensures Resume(s).Raises? <==> HasSendable(s) && !ByteBlocked(s) && NextRefused(s)
    ensures Resume(s).Waits? <==> !HasSendable(s)
    ensures Resume(s).Spins? <==> HasSendable(s) && ByteBlocked(s)
  {
    ScanControlsMeans(s, s.controls);
    ScanRowsMeans(s, s.spool.rows);
    FirstUnsentMeans(s, s.spool.rows);
    var first := FirstUnsent(s, s.spool.rows);
    if !UnsentControl(s) && |s.inflight| < MAX_INFLIGHT_FRAMES && first.Some? {
      assert WindowFull(s, first.value) <==> ByteBlocked(s);
    }
  }

  // The round after a spin is the same round: with no await in it, no
  // acknowledgement can be handled and the loop never gets out.
  lemma SpinRepeats(s: Sup)
    requires s.drain.AtTop? && Resume(s).Spins?
    ensures Resume(s).next == s.(event := false)
    ensures Resume(Resume(s).next) == Resume(s)
  {
    PassOutcomes(s);
    var t := s.(event := false);
    ScanControlsMeans(s, s.controls);
    ScanRowsMeans(s, s.spool.rows);
    ScanControlsMeans(t, t.controls);
    ScanRowsMeans(t, t.spool.rows);
    SameFirstUnsent(s, t, s.spool.rows);
    PassOutcomes(t);
  }

  lemma {:induction false} SameFirstUnsent(s: Sup, t: Sup, rows: seq<Row>)
    requires s.inflight == t.inflight
    ensures FirstUnsent(s, rows) == FirstUnsent(t, rows)
  {
    if rows != [] {
      SameFirstUnsent(s, t, rows[1..]);
    }
  }

  // ---- Draining ------------------------------------------------------------------------

  // Nothing in flight or in a suspended snapshot has been purged. A fence can
  // break this; acknowledgements, sends and emits cannot.
  ghost predicate NoGhosts(s: Sup) {
    && (forall i :: 0 <= i < |s.inflight| ==> Present(s, s.inflight[i].id))
    && match s.drain
       case InControls(rest) => forall c :: c in rest ==> c in s.controls
       case InRows(rest) => forall r :: r in rest ==> r in s.spool.rows
       case _ => true
  }

  predicate Running(s: Sup) {
    s.drain.AtTop? || s.drain.InControls? || s.drain.InRows?
  }

  lemma {:induction false} ScanRowsClean(s: Sup, rest: seq<Row>, sentAny: bool)
    requires NoGhosts(s.(drain := AtTop)) && (forall r :: r in rest ==> r in s.spool.rows)
    ensures NoGhosts(Next(ScanRows(s, rest, sentAny)))
    decreases sentAny, 1, |rest|
  {
    if rest == [] || (!InFlight(s.inflight, RowId(rest[0].ord)) && WindowFull(s, rest[0])) {
      if sentAny {
        ScanControlsClean(s, s.controls, false);
      }
    } else if InFlight(s.inflight, RowId(rest[0].ord)) {
      ScanRowsClean(s, rest[1..], sentAny);
    } else {
      var t := Next(SendRow(s, rest[0], rest[1..]));
      assert rest[0] in s.spool.rows;
      SameIndexPresent(s, t);
    }
  }

  lemma SameIndexPresent(s: Sup, t: Sup)
    requires s.controls == t.controls && s.spool == t.spool
    ensures forall id :: Present(s, id) <==> Present(t, id)
  {
  }

  lemma {:induction false} ScanControlsClean(s: Sup, rest: seq<Control>, sentAny: bool)
    requires NoGhosts(s.(drain := AtTop)) && (forall c :: c in rest ==> c in s.controls)
    ensures NoGhosts(Next(ScanControls(s, rest, sentAny)))
    decreases sentAny, 2, |rest|
  {
    if rest != [] && InFlight(s.inflight, ControlId(rest[0].id)) {
      ScanControlsClean(s, rest[1..], sentAny);
    } else if rest == [] || |s.inflight| >= MAX_INFLIGHT_FRAMES {
      ScanRowsClean(s, s.spool.rows, sentAny);
    } else {
      var t := Next(SendControl(s, rest[0], rest[1..]));
      assert rest[0] in s.controls;
      SameIndexPresent(s, t);
    }
  }

  // A send leaves spool and controls alone and takes one more slot; the other two
  // outcomes change nothing but the event and the suspension point, and both tell
  // what is sendable.
  lemma {:induction false} ScanOutcome(s: Sup, rows: seq<Row>, sentAny: bool)
    requires |s.inflight| <= MAX_INFLIGHT_FRAMES
    ensures Effect(s, ScanRows(s, rows, sentAny))
    decreases sentAny, 1, |rows|
  {
    if rows == [] || (!InFlight(s.inflight, RowId(rows[0].ord)) && WindowFull(s, rows[0])) {
      if sentAny {
        ScanControlsOutcome(s, s.controls, false);
      } else if HasSendable(s) {
      }
    } else if InFlight(s.inflight, RowId(rows[0].ord)) {
      ScanOutcome(s, rows[1..], sentAny);
    }
  }

  predicate Effect(s: Sup, step: Step) {
    && step.next.spool == s.spool
    && step.next.controls == s.controls
    && match step
       case Sends(t, _) => |t.inflight| == |s.inflight| + 1 <= MAX_INFLIGHT_FRAMES && Running(t)
       case Raises(t, _) => |t.inflight| == |s.inflight| + 1 <= MAX_INFLIGHT_FRAMES && t.drain.Detached?
       case Waits(t) => t == s.(event := false, drain := Waiting) && !HasSendable(s)
       case Spins(t) => t == s.(event := false, drain := AtTop) && HasSendable(s)
  }

  lemma {:induction false} ScanControlsOutcome(s: Sup, rest: seq<Control>, sentAny: bool)
    requires |s.inflight| <= MAX_INFLIGHT_FRAMES
    ensures Effect(s, ScanControls(s, rest, sentAny))
    decreases sentAny, 2, |rest|
  {
    if rest != [] && InFlight(s.inflight, ControlId(rest[0].id)) {
      ScanControlsOutcome(s, rest[1..], sentAny);
    } else if rest == [] || |s.inflight| >= MAX_INFLIGHT_FRAMES {
      ScanOutcome(s, s.spool.rows, sentAny);
    }
  }

  lemma ResumeEffect(s: Sup)
    requires SupInv(s) && NoGhosts(s) && Running(s)
    ensures SupInv(Resume(s).next) && NoGhosts(Resume(s).next)
    ensures Effect(s, Resume(s))
  {
    ResumeInv(s);
    match s.drain
    case AtTop =>
      ScanControlsOutcome(s, s.controls, false);
      ScanControlsClean(s, s.controls, false);
    case InControls(rest) =>
      ScanControlsOutcome(s, rest, true);
      ScanControlsClean(s, rest, true);
    case InRows(rest) =>
      ScanOutcome(s, rest, true);
      ScanRowsClean(s, rest, true);
  }

  // The row a step takes from the spool, to send it or to fail on it.
  function Taken(step: Step): Option<Row> {
    match step
    case Sends(_, RowDelivery(r)) => Some(r)
    case Raises(_, r) => Some(r)
    case _ => None
  }

  // What a step that takes a row takes: a pending row not in flight so far.
  predicate DeliversPending(s: Sup, step: Step) {
    && (step.next.drain.Detached? <==> step.Raises?)
    && match Taken(step)
       case Some(r) =>
         && r in s.spool.rows
         && !InFlight(s.inflight, RowId(r.ord))
         && step.next.inflight == s.inflight + [Slot(RowId(r.ord), RowSize(r))]
         && step.next.hiRow == r.ord
         && (Deliverable(r) <==> step.Sends?)
       case None => step.next.hiRow == s.hiRow
  }

  lemma {:induction false} ScanRowsDelivers(s: Sup, rest: seq<Row>, sentAny: bool)
    requires forall r :: r in rest ==> r in s.spool.rows
    ensures DeliversPending(s, ScanRows(s, rest, sentAny))
    decreases sentAny, 1, |rest|
  {
    if rest == [] || (!InFlight(s.inflight, RowId(rest[0].ord)) && WindowFull(s, rest[0])) {
      if sentAny {
        ScanControlsDelivers(s, s.controls, false);
      }
    } else if InFlight(s.inflight, RowId(rest[0].ord)) {
      ScanRowsDelivers(s, rest[1..], sentAny);
    }
  }

  lemma {:induction false} ScanControlsDelivers(s: Sup, rest: seq<Control>, sentAny: bool)
    ensures DeliversPending(s, ScanControls(s, rest, sentAny))
    decreases sentAny, 2, |rest|
  {
    if rest != [] && InFlight(s.inflight, ControlId(rest[0].id)) {
      ScanControlsDelivers(s, rest[1..], sentAny);
    } else if rest == [] || |s.inflight| >= MAX_INFLIGHT_FRAMES {
      ScanRowsDelivers(s, s.spool.rows, sentAny);
    }
  }

  lemma ResumeDelivers(s: Sup)
    requires NoGhosts(s) && Running(s)
    ensures DeliversPending(s, Resume(s))
  {
    match s.drain
    case AtTop => ScanControlsDelivers(s, s.controls, false);
    case InControls(rest) => ScanControlsDelivers(s, rest, true);
    case InRows(rest) => ScanRowsDelivers(s, rest, true);
  }

  // Acknowledgements purge only what they release.
  lemma AckControlClean(s: Sup, n: nat)
    requires SupInv(s) && NoGhosts(s)
    ensures NoGhosts(ApplyAck(s, ControlId(n)))
  {
    var id := ControlId(n);
    var t := ApplyAck(s, id);
    if t != s {
      DropMeans(s.inflight, id);
      forall i | 0 <= i < |t.inflight|
        ensures Present(t, t.inflight[i].id)
      {
        var x := t.inflight[i].id;
        assert InFlight(t.inflight, x);
        var j :| 0 <= j < |s.inflight| && s.inflight[j].id == x;
        assert Present(s, x);
        if x.ControlId? {
          var c :| 0 <= c < |s.controls| && s.controls[c].id == x.id;
          assert t.controls[c - 1].id == x.id;
        }
      }
      if s.drain.InControls? {
        forall c | c in s.drain.controls
          ensures c in t.controls
        {
          var i :| 0 <= i < |s.controls| && s.controls[i] == c;
          assert t.controls[i - 1] == c;
        }
      }
    }
  }

  lemma AckRowClean(s: Sup, ord: nat)
    requires SupInv(s) && NoGhosts(s)
    ensures NoGhosts(ApplyAck(s, RowId(ord)))
  {
    var t := ApplyAck(s, RowId(ord));
    if t != s {
      AckOrdRemoves(s.spool, ord);
      DropMeans(s.inflight, RowId(ord));
      forall i | 0 <= i < |t.inflight|
        ensures Present(t, t.inflight[i].id)
      {
        var x := t.inflight[i].id;
        assert InFlight(t.inflight, x);
        var j :| 0 <= j < |s.inflight| && s.inflight[j].id == x;
        assert Present(s, x);
        if x.RowId? {
          var r :| 0 <= r < |s.spool.rows| && s.spool.rows[r].ord == x.ord;
          assert s.spool.rows[r] in t.spool.rows;
        }
      }
    }
  }

  lemma OldestRowAcks(s: Sup)
    requires Inv(s.spool) && s.spool.rows != []
    ensures AcksOrd(s.spool, s.spool.rows[0].ord)
  {
    var row := s.spool.rows[0];
    var lane := Lane(s.spool.rows, row.stream);
    assert lane[0] == row;
    assert Contiguous(lane, Lookup(s.spool.acked, row.stream));
  }

  lemma EmitClean(s: Sup, f: Frame, bytes: nat)
    requires NoGhosts(s)
    ensures NoGhosts(EmitOutput(s, f, bytes))
  {
    var t := EmitOutput(s, f, bytes);
    forall i | 0 <= i < |t.inflight|
      ensures Present(t, t.inflight[i].id)
    {
      var id := s.inflight[i].id;
      assert Present(s, id);
      if id.RowId? {
        var j :| 0 <= j < |s.spool.rows| && s.spool.rows[j].ord == id.ord;
        assert t.spool.rows[j].ord == id.ord;
      }
    }
  }

  lemma ControlClean(s: Sup, agentId: string)
    requires NoGhosts(s)
    ensures NoGhosts(EmitControl(s, agentId))
  {
    var t := EmitControl(s, agentId);
    forall i | 0 <= i < |t.inflight|
      ensures Present(t, t.inflight[i].id)
    {
      var id := s.inflight[i].id;
      assert Present(s, id);
      if id.ControlId? {
        var j :| 0 <= j < |s.controls| && s.controls[j].id == id.id;
        assert t.controls[j].id == id.id;
      }
    }
  }

  // A pass that has sent something either takes another delivery or starts a fresh pass.
  lemma {:induction false} RowScanContinues(s: Sup, rows: seq<Row>)
    ensures var step := ScanRows(s, rows, true);
            step.Sends? || step.Raises? || step == ScanControls(s, s.controls, false)
  {
    if rows == [] {
      assert ScanRows(s, rows, true) == EndPass(s, true);
    } else if InFlight(s.inflight, RowId(rows[0].ord)) {
      RowScanContinues(s, rows[1..]);
    } else if WindowFull(s, rows[0]) {
      assert ScanRows(s, rows, true) == EndPass(s, true);
    }
  }

  lemma {:induction false} ControlScanContinues(s: Sup, rest: seq<Control>)
    ensures var step := ScanControls(s, rest, true);
            step.Sends? || step.Raises? || step == ScanControls(s, s.controls, false)
  {
    RowScanContinues(s, s.spool.rows);
    if rest != [] && InFlight(s.inflight, ControlId(rest[0].id)) {
      ControlScanContinues(s, rest[1..]);
    }
  }

  lemma SpinMeansBlocked(s: Sup)
    requires Running(s) && Resume(s).Spins?
    ensures ByteBlocked(s.(event := false, drain := AtTop))
  {
    var t := s.(event := false, drain := AtTop);
    match s.drain {
      case AtTop =>
      case InControls(rest) => ControlScanContinues(s, rest);
      case InRows(rest) => RowScanContinues(s, rest);
    }
    assert ScanControls(s, s.controls, false).Spins?;
    ScanControlsMeans(s, s.controls);
    ScanRowsMeans(s, s.spool.rows);
    ScanControlsMeans(t, t.controls);
    ScanRowsMeans(t, t.spool.rows);
    SameFirstUnsent(s, t, s.spool.rows);
    FirstUnsentMeans(t, t.spool.rows);
    assert Resume(t).Spins?;
    PassOutcomes(t);
  }

  // ---- Where the loop departs from its comments ---------------------------------------------

  lemma {:induction false} HandleAppend(s: Sup, events: seq<Event>, e: Event)
    ensures HandleAll(s, events + [e]) == Handle(HandleAll(s, events), e)
    decreases |events|
  {
    if events == [] {
      assert HandleAll(Handle(s, e), []) == Handle(s, e);
      assert ([] + [e])[1..] == [];
    } else {
      assert (events + [e])[1..] == events[1..] + [e];
      HandleAppend(Handle(s, events[0]), events[1..], e);
    }
  }

  // Two rows pending, the first one just sent.
  lemma MidScan(f: Frame) returns (events: seq<Event>, s: Sup)
    requires f.spoolSid.None? && f.spoolPid.None? && f.data == ""
    requires |f.agentId| + |f.sid| + |f.pid| + |f.kind| <= 1000
    ensures s == HandleAll(Start(EMPTY), events)
    ensures var k := f.Identity();
            var r1, r2 := Row(1, k, 1, f, 0), Row(2, k, 2, f, 0);
            s.spool.rows == [r1, r2] && s.inflight == [Slot(RowId(1), 0)] && s.drain == InRows([r2])
  {
    var k := f.Identity();
    var r1, r2 := Row(1, k, 1, f, 0), Row(2, k, 2, f, 0);
    var s1 := Handle(Start(EMPTY), AttachEvent);
    var s2 := Handle(s1, OutputEvent(f, 0));
    assert s2.spool.rows == [r1];
    assert Lane([r1], k) == [r1];
    var s3 := Handle(s2, OutputEvent(f, 0));
    assert s3.spool.rows == [r1, r2];
    s := Handle(s3, ResumeEvent);
    ShortIsDeliverable(r1);
    assert s == SendRow(s3, r1, [r2]).next;
    events := [];
    HandleAppend(Start(EMPTY), events, AttachEvent);
    events := events + [AttachEvent];
    HandleAppend(Start(EMPTY), events, OutputEvent(f, 0));
    events := events + [OutputEvent(f, 0)];
    HandleAppend(Start(EMPTY), events, OutputEvent(f, 0));
    events := events + [OutputEvent(f, 0)];
    HandleAppend(Start(EMPTY), events, ResumeEvent);
    events := events + [ResumeEvent];
  }

  // A fence of both rows now, and the next round of the loop.
  lemma FenceMidScan(s: Sup, f: Frame)
    requires f.spoolSid.None? && f.spoolPid.None? && f.data == ""
    requires |f.agentId| + |f.sid| + |f.pid| + |f.kind| <= 1000
    requires var k := f.Identity(); var r1, r2 := Row(1, k, 1, f, 0), Row(2, k, 2, f, 0);
             s.spool.rows == [r1, r2] && s.inflight == [Slot(RowId(1), 0)] && s.drain == InRows([r2])
    ensures var leaked := Handle(Handle(s, FenceEvent(f.Identity())), ResumeEvent);
            && InFlight(leaked.inflight, RowId(2))
            && !Present(leaked, RowId(2))
            && ApplyAck(leaked, RowId(2)) == leaked
  {
    var k := f.Identity();
    var r1, r2 := Row(1, k, 1, f, 0), Row(2, k, 2, f, 0);
    var fenced := Handle(s, FenceEvent(k));
    var unfenced := s.(spool := Fence(s.spool, k));
    assert Without([r2], k) == [];
    assert Without([r1, r2], k) == [];
    assert !Present(unfenced, RowId(1));
    assert KeepPresent(unfenced, s.inflight) == KeepPresent(unfenced, []) == [];
    var leaked := Handle(fenced, ResumeEvent);
    ShortIsDeliverable(r2);
    assert leaked == SendRow(fenced, r2, []).next;
    assert leaked.inflight[0].id == RowId(2);
  }

  // A fence in the middle of a scan: the purged row is still sent from the
  // snapshot, stays in the window, and its acknowledgement does not release it.
  lemma FenceInScanLeaksASlot()
    ensures exists events: seq<Event>, ord: nat ::
              var s := HandleAll(Start(EMPTY), events);
              && InFlight(s.inflight, RowId(ord))
              && !Present(s, RowId(ord))
              && ApplyAck(s, RowId(ord)) == s
  {
    var f := Frame(None, None, "agent", "s", "p", "o", "");
    var events, s := MidScan(f);
    FenceMidScan(s, f);
    var fence := FenceEvent(f.Identity());
    HandleAppend(Start(EMPTY), events, fence);
    HandleAppend(Start(EMPTY), events + [fence], ResumeEvent);
    var all := events + [fence] + [ResumeEvent];
    assert InFlight(HandleAll(Start(EMPTY), all).inflight, RowId(2));
  }

  // A loop that spins: one frame over half the byte bound in flight, a second one
  // behind it. A pass that sent the first ends in the state that never awaits. A frame
  // that cannot be sent ends the loop instead.
  lemma TwoLargeFramesSpin(f: Frame)
    requires f.spoolSid.None? && f.spoolPid.None?
    requires |f.data| > MAX_INFLIGHT_BYTES / 2
    ensures var s := EmitOutput(EmitOutput(Attach(Start(EMPTY)), f, 0), f, 0);
            if Deliverable(Row(1, f.Identity(), 1, f, 0))
            then Resume(s).Sends? && Resume(Resume(s).next).Spins?
            else Resume(s).Raises?
  {
    var k := f.Identity();
    var r1, r2 := Row(1, k, 1, f, 0), Row(2, k, 2, f, 0);
    var s1 := Attach(Start(EMPTY));
    var s2 := EmitOutput(s1, f, 0);
    assert s2.spool.rows == [r1];
    assert Lane([r1], k) == [r1];
    var s := EmitOutput(s2, f, 0);
    assert s.spool.rows == [r1, r2];
    assert Resume(s) == SendRow(s, r1, [r2]);
    if Deliverable(r1) {
      SecondSpins(s, r1, r2);
    }
  }

  lemma SecondSpins(s: Sup, r1: Row, r2: Row)
    requires s.spool.rows == [r1, r2] && r1.ord == 1 && r2.ord == 2 && s.controls == []
    requires s.inflight == [] && s.inflightBytes == 0 && Deliverable(r1)
    requires RowSize(r1) + RowSize(r2) > MAX_INFLIGHT_BYTES
    ensures Resume(SendRow(s, r1, [r2]).next).Spins?
  {
    var t := SendRow(s, r1, [r2]).next;
    assert t.inflight == [Slot(RowId(1), RowSize(r1))];
    assert t.inflight[0].id == RowId(1);
    assert InFlight(t.inflight, RowId(1));
    assert !InFlight(t.inflight, RowId(2));
    assert WindowFull(t, r2);
    assert Resume(t) == ScanRows(t, [r2], true) == EndPass(t, true) == ScanControls(t, [], false);
    assert ScanRows(t, [r1, r2], false) == ScanRows(t, [r2], false) == EndPass(t, false) by {
      assert [r1, r2][1..] == [r2];
    }
    assert t.spool.rows[1] == r2;
    assert HasSendable(t);
  }
}
