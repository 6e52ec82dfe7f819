// Progress of the delivery window: the loop is never asleep over work it could do, a
// fence leaves nothing behind except in one case, and every interleaving of the loop,
// its wake-ups and in-order acknowledgements empties the spool up to the first row
// that the channel refuses.
module SenderProgress {
  import opened Common
  import opened Spool
  import opened Ipc
  import opened Sender

  // ---- No lost wake-up ---------------------------------------------------------------

  // A loop that sleeps although something is sendable has been woken.
  ghost predicate Awake(s: Sup) {
    s.drain.Waiting? && HasSendable(s) ==> s.event
  }

  // Every event but the removal of agents keeps it.
  lemma AwakeStep(s: Sup, e: Event)
    requires SupInv(s) && Awake(s) && !e.RemoveAgentsEvent?
    ensures Awake(Handle(s, e))
  {
    if e.ResumeEvent? && Running(s) {
      match s.drain
      case AtTop => ScanControlsOutcome(s, s.controls, false);
      case InControls(rest) => ScanControlsOutcome(s, rest, true);
      case InRows(rest) => ScanOutcome(s, rest, true);
    }
  }

  // What a removal takes along: the streams it fences.
  function Removed(s: Sup, agents: set<string>, registered: seq<Stream>): seq<Stream> {
    StreamsOf(s.spool.rows, agents) + registered
  }

  ghost predicate RowStays(s: Sup, r: Row, agents: set<string>, registered: seq<Stream>) {
    r in s.spool.rows && r.stream !in Removed(s, agents, registered)
  }

  ghost predicate ControlStays(s: Sup, c: Control, agents: set<string>) {
    c in s.controls && c.agentId !in agents
  }

  ghost predicate DeliveryStays(s: Sup, id: DeliveryId, agents: set<string>, registered: seq<Stream>) {
    match id
    case RowId(ord) => exists r :: RowStays(s, r, agents, registered) && r.ord == ord
    case ControlId(n) => exists c :: ControlStays(s, c, agents) && c.id == n
  }

  // Something that is not in flight stays.
  ghost predicate UnsentStays(s: Sup, agents: set<string>, registered: seq<Stream>) {
    || (exists r :: RowStays(s, r, agents, registered) && !InFlight(s.inflight, RowId(r.ord)))
    || (exists c :: ControlStays(s, c, agents) && !InFlight(s.inflight, ControlId(c.id)))
  }

  // The loop sleeps unwoken, a delivery in flight goes, and something unsent stays.
  ghost predicate LosesWakeup(s: Sup, agents: set<string>, registered: seq<Stream>) {
    && s.drain.Waiting? && !s.event
    && (exists i :: 0 <= i < |s.inflight| && !DeliveryStays(s, s.inflight[i].id, agents, registered))
    && UnsentStays(s, agents, registered)
  }

  function Purged(s: Sup, agents: set<string>, registered: seq<Stream>): Sup {
    s.(spool := FenceAll(s.spool, Removed(s, agents, registered)), controls := KeepControls(s.controls, agents))
  }

  lemma PurgedMeans(s: Sup, agents: set<string>, registered: seq<Stream>)
    requires SupInv(s)
    ensures var t := Purged(s, agents, registered);
            && (forall r :: r in t.spool.rows <==> RowStays(s, r, agents, registered))
            && (forall c :: c in t.controls <==> ControlStays(s, c, agents))
            && (forall id :: Present(t, id) <==> DeliveryStays(s, id, agents, registered))
  {
    var t := Purged(s, agents, registered);
    FenceAllMeans(s.spool, Removed(s, agents, registered));
    KeepControlsMembers(s.controls, agents);
    forall id
      ensures Present(t, id) <==> DeliveryStays(s, id, agents, registered)
    {
      PresentMeans(t, id);
    }
  }

  lemma PresentMeans(s: Sup, id: DeliveryId)
    ensures Present(s, id) <==> match id
                                case RowId(ord) => exists r :: r in s.spool.rows && r.ord == ord
                                case ControlId(n) => exists c :: c in s.controls && c.id == n
  {
    match id
    case RowId(ord) =>
      if exists r :: r in s.spool.rows && r.ord == ord {
        var r :| r in s.spool.rows && r.ord == ord;
        var i :| 0 <= i < |s.spool.rows| && s.spool.rows[i] == r;
      }
    case ControlId(n) =>
      if exists c :: c in s.controls && c.id == n {
        var c :| c in s.controls && c.id == n;
        var i :| 0 <= i < |s.controls| && s.controls[i] == c;
      }
  }

  // Keeping the present slots loses some exactly when one is not present.
  lemma {:induction false} KeepPresentLess(s: Sup, slots: seq<Slot>)
    ensures |KeepPresent(s, slots)| <= |slots|
    ensures |KeepPresent(s, slots)| < |slots| <==> exists i :: 0 <= i < |slots| && !Present(s, slots[i].id)
  {
    if slots != [] {
      KeepPresentLess(s, slots[1..]);
      if exists i :: 0 <= i < |slots| && !Present(s, slots[i].id) {
        var i :| 0 <= i < |slots| && !Present(s, slots[i].id);
        assert i > 0 ==> slots[1..][i - 1] == slots[i];
      }
      if exists i :: 0 <= i < |slots[1..]| && !Present(s, slots[1..][i].id) {
        var i :| 0 <= i < |slots[1..]| && !Present(s, slots[1..][i].id);
        assert slots[i + 1] == slots[1..][i];
      }
    }
  }

  // What is sendable, in terms of members.
  lemma SendableMeans(s: Sup)
    ensures HasSendable(s) <==>
              && |s.inflight| < MAX_INFLIGHT_FRAMES
              && ((exists c :: c in s.controls && !InFlight(s.inflight, ControlId(c.id)))
                  || (exists r :: r in s.spool.rows && !InFlight(s.inflight, RowId(r.ord))))
  {
    if exists c :: c in s.controls && !InFlight(s.inflight, ControlId(c.id)) {
      var c :| c in s.controls && !InFlight(s.inflight, ControlId(c.id));
      var i :| 0 <= i < |s.controls| && s.controls[i] == c;
    }
    if exists r :: r in s.spool.rows && !InFlight(s.inflight, RowId(r.ord)) {
      var r :| r in s.spool.rows && !InFlight(s.inflight, RowId(r.ord));
      var i :| 0 <= i < |s.spool.rows| && s.spool.rows[i] == r;
    }
  }

  lemma RemovalSendable(s: Sup, agents: set<string>, registered: seq<Stream>)
    requires SupInv(s)
    ensures var t := RemoveAgents(s, agents, registered);
            && t.drain == s.drain && t.event == s.event
            && (HasSendable(t) <==> |t.inflight| < MAX_INFLIGHT_FRAMES && UnsentStays(s, agents, registered))
            && |t.inflight| <= |s.inflight|
            && (|t.inflight| < |s.inflight| <==>
                  exists i :: 0 <= i < |s.inflight| && !DeliveryStays(s, s.inflight[i].id, agents, registered))
  {
    var purged := Purged(s, agents, registered);
    var t := RemoveAgents(s, agents, registered);
    PurgedMeans(s, agents, registered);
    KeepPresentLess(purged, s.inflight);
    KeepMeans(purged, s.inflight);
    SendableMeans(t);
    forall r | RowStays(s, r, agents, registered)
      ensures InFlight(t.inflight, RowId(r.ord)) <==> InFlight(s.inflight, RowId(r.ord))
    {
      assert DeliveryStays(s, RowId(r.ord), agents, registered);
    }
    forall c | ControlStays(s, c, agents)
      ensures InFlight(t.inflight, ControlId(c.id)) <==> InFlight(s.inflight, ControlId(c.id))
    {
      assert DeliveryStays(s, ControlId(c.id), agents, registered);
    }
  }

  // A removal frees slots without waking the loop: exactly then it may sleep on.
  lemma RemovalWakes(s: Sup, agents: set<string>, registered: seq<Stream>)
    requires SupInv(s) && Awake(s)
    ensures Awake(RemoveAgents(s, agents, registered)) <==> !LosesWakeup(s, agents, registered)
  {
    RemovalSendable(s, agents, registered);
    SendableMeans(s);
    if s.drain.Waiting? && !s.event && UnsentStays(s, agents, registered) {
      UnsentMeansFull(s, agents, registered);
    }
  }

  lemma UnsentMeansFull(s: Sup, agents: set<string>, registered: seq<Stream>)
    requires !HasSendable(s) && UnsentStays(s, agents, registered)
    ensures |s.inflight| >= MAX_INFLIGHT_FRAMES
  {
    SendableMeans(s);
    if exists r :: RowStays(s, r, agents, registered) && !InFlight(s.inflight, RowId(r.ord)) {
      var r :| RowStays(s, r, agents, registered) && !InFlight(s.inflight, RowId(r.ord));
      assert r in s.spool.rows;
    } else {
      var c :| ControlStays(s, c, agents) && !InFlight(s.inflight, ControlId(c.id));
      assert c in s.controls;
    }
  }

  ghost predicate KeepsWakeups(s: Sup, events: seq<Event>)
    decreases |events|
  {
    events == [] || ((events[0].RemoveAgentsEvent? ==> !LosesWakeup(s, events[0].agents, events[0].registered))
                     && KeepsWakeups(Handle(s, events[0]), events[1..]))
  }

  // In every run, fences in mid-scan included, only such a removal loses a wake-up.
  lemma {:induction false} NeverAsleepOverWork(s: Sup, events: seq<Event>)
    requires SupInv(s) && Awake(s) && KeepsWakeups(s, events)
    ensures Awake(HandleAll(s, events))
    decreases |events|
  {
    if events != [] {
      HandleInv(s, events[0]);
      if events[0].RemoveAgentsEvent? {
        RemovalWakes(s, events[0].agents, events[0].registered);
      } else {
        AwakeStep(s, events[0]);
      }
      NeverAsleepOverWork(Handle(s, events[0]), events[1..]);
    }
  }

  // ---- What a fence leaves behind --------------------------------------------------------

  // A scan is suspended over a row of the stream.
  ghost predicate Scanning(s: Sup, k: Stream) {
    s.drain.InRows? && exists r :: r in s.drain.rows && r.stream == k
  }

  // A fence leaves nothing behind exactly when no suspended scan holds a row of it.
  lemma FenceGhosts(s: Sup, k: Stream)
    requires SupInv(s) && NoGhosts(s)
    ensures NoGhosts(FenceStream(s, k)) <==> !Scanning(s, k)
  {
    var purged := s.(spool := Fence(s.spool, k));
    WithoutMembers(s.spool.rows, k);
    KeptPresent(purged);
  }

  lemma KeptPresent(s: Sup)
    requires DistinctIds(s.inflight)
    ensures forall i :: 0 <= i < |Reconcile(s).inflight| ==> Present(Reconcile(s), Reconcile(s).inflight[i].id)
  {
    KeepMeans(s, s.inflight);
    SameIndexPresent(s, Reconcile(s));
    var kept := Reconcile(s).inflight;
    forall i | 0 <= i < |kept|
      ensures Present(s, kept[i].id)
    {
      assert InFlight(kept, kept[i].id);
    }
  }

  // A scan is suspended over a row or a control that a removal takes.
  ghost predicate ScanningRemoved(s: Sup, agents: set<string>, registered: seq<Stream>) {
    || (s.drain.InRows? && exists r :: r in s.drain.rows && r.stream in Removed(s, agents, registered))
    || (s.drain.InControls? && exists c :: c in s.drain.controls && c.agentId in agents)
  }

  lemma RemovalGhosts(s: Sup, agents: set<string>, registered: seq<Stream>)
    requires SupInv(s) && NoGhosts(s)
    ensures NoGhosts(RemoveAgents(s, agents, registered)) <==> !ScanningRemoved(s, agents, registered)
  {
    PurgedMeans(s, agents, registered);
    KeptPresent(Purged(s, agents, registered));
  }

  // ---- Sound states --------------------------------------------------------------------------

  // What is booked for a row is its size, and a row that is booked was sent, unless it
  // ended the loop.
  ghost predicate SlotsMatch(s: Sup) {
    forall i, r :: 0 <= i < |s.inflight| && r in s.spool.rows && s.inflight[i].id == RowId(r.ord) ==>
      s.inflight[i].size == RowSize(r) && (Deliverable(r) || s.drain.Detached?)
  }

  ghost predicate Sound(s: Sup) {
    SupInv(s) && NoGhosts(s) && Awake(s) && SlotsMatch(s)
  }

  // Events that leave no ghost and lose no wake-up.
  ghost predicate Harmless(s: Sup, e: Event) {
    match e
    case FenceEvent(k) => !Scanning(s, k)
    case RemoveAgentsEvent(agents, registered) =>
      !ScanningRemoved(s, agents, registered) && !LosesWakeup(s, agents, registered)
    case _ => true
  }

  lemma HandleGhosts(s: Sup, e: Event)
    requires SupInv(s) && NoGhosts(s) && Harmless(s, e)
    ensures NoGhosts(Handle(s, e))
  {
    match e
    case OutputEvent(f, bytes) => EmitClean(s, f, bytes);
    case ControlEvent(agentId) => ControlClean(s, agentId);
    case AckEvent(id) => if id.ControlId? { AckControlClean(s, id.id); } else { AckRowClean(s, id.ord); }
    case FenceEvent(k) => FenceGhosts(s, k);
    case RemoveAgentsEvent(agents, registered) => RemovalGhosts(s, agents, registered);
    case ResumeEvent => if Running(s) { ResumeEffect(s); }
    case WakeEvent => SameIndexPresent(s, Wake(s));
    case DetachEvent => SameIndexPresent(s, Detach(s));
    case _ =>
  }

  // The window grows by a slot booked with its row's size, or by a control.
  predicate BooksExactly(s: Sup, step: Step) {
    match step
    case Sends(t, RowDelivery(r)) => t.inflight == s.inflight + [Slot(RowId(r.ord), RowSize(r))]
    case Raises(t, r) => t.inflight == s.inflight + [Slot(RowId(r.ord), RowSize(r))]
    case Sends(t, ControlDelivery(c)) =>
      t.inflight == s.inflight + [Slot(ControlId(c.id), 0)] && !InFlight(s.inflight, ControlId(c.id))
    case _ => true
  }

  lemma {:induction false} ScanRowsBooks(s: Sup, rest: seq<Row>, sentAny: bool)
    ensures BooksExactly(s, ScanRows(s, rest, sentAny))
    decreases sentAny, 1, |rest|
  {
    if rest == [] || (!InFlight(s.inflight, RowId(rest[0].ord)) && WindowFull(s, rest[0])) {
      if sentAny {
        ScanControlsBooks(s, s.controls, false);
      }
    } else if InFlight(s.inflight, RowId(rest[0].ord)) {
      ScanRowsBooks(s, rest[1..], sentAny);
    }
  }

  lemma {:induction false} ScanControlsBooks(s: Sup, rest: seq<Control>, sentAny: bool)
    ensures BooksExactly(s, ScanControls(s, rest, sentAny))
    decreases sentAny, 2, |rest|
  {
    if rest != [] && InFlight(s.inflight, ControlId(rest[0].id)) {
      ScanControlsBooks(s, rest[1..], sentAny);
    } else if rest == [] || |s.inflight| >= MAX_INFLIGHT_FRAMES {
      ScanRowsBooks(s, s.spool.rows, sentAny);
    }
  }

  lemma ResumeBooks(s: Sup)
    requires Running(s)
    ensures BooksExactly(s, Resume(s))
  {
    match s.drain
    case AtTop => ScanControlsBooks(s, s.controls, false);
    case InControls(rest) => ScanControlsBooks(s, rest, true);
    case InRows(rest) => ScanRowsBooks(s, rest, true);
  }

  lemma ResumeSlots(s: Sup)
    requires SupInv(s) && NoGhosts(s) && SlotsMatch(s) && Running(s)
    ensures SlotsMatch(Resume(s).next)
  {
    ResumeEffect(s);
    ResumeDelivers(s);
    ResumeBooks(s);
    var step := Resume(s);
    match Taken(step)
    case Some(r) => TakenMatches(s, step.next, r);
    case None => OthersMatch(s, step.next);
  }

  lemma TakenMatches(s: Sup, t: Sup, taken: Row)
    requires Inv(s.spool) && SlotsMatch(s) && !s.drain.Detached? && t.spool == s.spool
    requires t.inflight == s.inflight + [Slot(RowId(taken.ord), RowSize(taken))]
    requires taken in s.spool.rows && (Deliverable(taken) || t.drain.Detached?)
    ensures SlotsMatch(t)
  {
    forall r | r in s.spool.rows && r.ord == taken.ord
      ensures r == taken
    {
      SameOrdSameRow(s.spool, r, taken);
    }
  }

  lemma OthersMatch(s: Sup, t: Sup)
    requires SlotsMatch(s) && !s.drain.Detached? && t.spool == s.spool
    requires t.inflight == s.inflight || exists id: nat :: t.inflight == s.inflight + [Slot(ControlId(id), 0)]
    ensures SlotsMatch(t)
  {
  }

  lemma SameOrdSameRow(spool: State, a: Row, b: Row)
    requires Inv(spool) && a in spool.rows && b in spool.rows && a.ord == b.ord
    ensures a == b
  {
    var i :| 0 <= i < |spool.rows| && spool.rows[i] == a;
    var j :| 0 <= j < |spool.rows| && spool.rows[j] == b;
  }

  // Fewer slots and fewer rows still match.
  lemma FewerSlots(s: Sup, t: Sup)
    requires SlotsMatch(s)
    requires forall e :: e in t.inflight ==> e in s.inflight
    requires forall r :: r in t.spool.rows ==> r in s.spool.rows
    requires t.drain == s.drain
    ensures SlotsMatch(t)
  {
    forall i, r | 0 <= i < |t.inflight| && r in t.spool.rows && t.inflight[i].id == RowId(r.ord)
      ensures t.inflight[i].size == RowSize(r) && (Deliverable(r) || t.drain.Detached?)
    {
      assert t.inflight[i] in t.inflight;
      var j :| 0 <= j < |s.inflight| && s.inflight[j] == t.inflight[i];
    }
  }

  lemma EmitSlots(s: Sup, f: Frame, bytes: nat)
    requires SupInv(s) && SlotsMatch(s)
    ensures SlotsMatch(EmitOutput(s, f, bytes))
  {
    var t := EmitOutput(s, f, bytes);
    forall i, r | 0 <= i < |t.inflight| && r in t.spool.rows && t.inflight[i].id == RowId(r.ord)
      ensures t.inflight[i].size == RowSize(r) && (Deliverable(r) || t.drain.Detached?)
    {
      assert s.inflight[i].id == RowId(r.ord) && r.ord <= s.hiRow;
      assert r in s.spool.rows;
    }
  }

  lemma AckSlots(s: Sup, id: DeliveryId)
    requires SupInv(s) && SlotsMatch(s)
    ensures SlotsMatch(ApplyAck(s, id))
  {
    if ApplyAck(s, id) != s {
      DropMeans(s.inflight, id);
      if id.RowId? {
        AckOrdRemoves(s.spool, id.ord);
      }
      FewerSlots(s, ApplyAck(s, id));
    }
  }

  lemma HandleSlots(s: Sup, e: Event)
    requires SupInv(s) && NoGhosts(s) && SlotsMatch(s)
    ensures SlotsMatch(Handle(s, e))
  {
    match e
    case OutputEvent(f, bytes) => EmitSlots(s, f, bytes);
    case AckEvent(id) => AckSlots(s, id);
    case FenceEvent(k) =>
      WithoutMembers(s.spool.rows, k);
      KeepMeans(s.(spool := Fence(s.spool, k)), s.inflight);
      FewerSlots(s, Handle(s, e));
    case RemoveAgentsEvent(agents, registered) =>
      PurgedMeans(s, agents, registered);
      KeepMeans(Purged(s, agents, registered), s.inflight);
      FewerSlots(s, Handle(s, e));
    case ResumeEvent => if Running(s) { ResumeSlots(s); }
    case _ =>
  }

  lemma HandleSound(s: Sup, e: Event)
    requires Sound(s) && Harmless(s, e)
    ensures Sound(Handle(s, e))
  {
    HandleInv(s, e);
    HandleGhosts(s, e);
    HandleSlots(s, e);
    if e.RemoveAgentsEvent? {
      RemovalWakes(s, e.agents, e.registered);
    } else {
      AwakeStep(s, e);
    }
  }

  ghost predicate AllHarmless(s: Sup, events: seq<Event>)
    decreases |events|
  {
    events == [] || (Harmless(s, events[0]) && AllHarmless(Handle(s, events[0]), events[1..]))
  }

  // A run in which each fence and removal meets its condition leaves no ghost in the
  // window or in a suspended scan, and never leaves the loop asleep over work.
  lemma {:induction false} RunSound(s: Sup, events: seq<Event>)
    requires Sound(s) && AllHarmless(s, events)
    ensures Sound(HandleAll(s, events))
    decreases |events|
  {
    if events != [] {
      HandleSound(s, events[0]);
      RunSound(Handle(s, events[0]), events[1..]);
    }
  }

  lemma StartSound(spool: State)
    requires Inv(spool)
    ensures Sound(Start(spool))
  {
    StartInv(spool);
  }

  lemma HarmlessRunsStaySound(spool: State, events: seq<Event>)
    requires Inv(spool) && AllHarmless(Start(spool), events)
    ensures Sound(HandleAll(Start(spool), events))
  {
    StartSound(spool);
    RunSound(Start(spool), events);
  }

  // ---- The bytes in flight ---------------------------------------------------------------------

  function RowBytes(rows: seq<Row>): nat {
    if rows == [] then 0 else RowBytes(rows[..|rows| - 1]) + RowSize(rows[|rows| - 1])
  }

  // Slots that book exactly these rows, and any controls, weigh what the rows weigh.
  lemma {:induction false} SlotsWeigh(slots: seq<Slot>, rows: seq<Row>)
    requires DistinctIds(slots) && ControlsWeightless(slots) && Ordered(rows)
    requires forall r :: r in rows ==> InFlight(slots, RowId(r.ord))
    requires forall e :: e in slots && e.id.RowId? ==> exists r :: r in rows && r.ord == e.id.ord && e.size == RowSize(r)
    ensures TotalSize(slots) == RowBytes(rows)
    decreases |rows|
  {
    if rows == [] {
      NoRowSlots(slots);
      NoRowsNoBytes(slots);
    } else {
      var n := |rows| - 1;
      var id := RowId(rows[n].ord);
      assert rows[n] in rows;
      DropMeans(slots, id);
      RestBooks(slots, rows);
      WeightlessRest(slots, id);
      SlotsWeigh(Drop(slots, id), rows[..n]);
      LastWeighs(slots, rows);
    }
  }

  // Without the last row's slot, the slots book the rows before it.
  lemma RestBooks(slots: seq<Slot>, rows: seq<Row>)
    requires DistinctIds(slots) && Ordered(rows) && rows != []
    requires forall r :: r in rows ==> InFlight(slots, RowId(r.ord))
    requires forall e :: e in slots && e.id.RowId? ==> exists r :: r in rows && r.ord == e.id.ord && e.size == RowSize(r)
    ensures var n := |rows| - 1; var rest := Drop(slots, RowId(rows[n].ord));
            && (forall r :: r in rows[..n] ==> InFlight(rest, RowId(r.ord)))
            && forall e :: e in rest && e.id.RowId? ==>
                 exists r :: r in rows[..n] && r.ord == e.id.ord && e.size == RowSize(r)
  {
    var n := |rows| - 1;
    var front, id := rows[..n], RowId(rows[n].ord);
    var rest := Drop(slots, id);
    DropMeans(slots, id);
    forall x | x in front
      ensures InFlight(rest, RowId(x.ord))
    {
      var i :| 0 <= i < |front| && front[i] == x;
      assert rows[i] == x && x in rows;
    }
    forall e | e in rest && e.id.RowId?
      ensures exists x :: x in front && x.ord == e.id.ord && e.size == RowSize(x)
    {
      var x :| x in rows && x.ord == e.id.ord && e.size == RowSize(x);
      assert InFlight(rest, e.id);
      assert x in front;
    }
  }

  lemma LastWeighs(slots: seq<Slot>, rows: seq<Row>)
    requires Ordered(rows) && rows != [] && InFlight(slots, RowId(rows[|rows| - 1].ord))
    requires forall e :: e in slots && e.id.RowId? ==> exists r :: r in rows && r.ord == e.id.ord && e.size == RowSize(r)
    ensures var r := rows[|rows| - 1]; TotalSize(slots) == TotalSize(Drop(slots, RowId(r.ord))) + RowSize(r)
  {
    var n := |rows| - 1;
    var id := RowId(rows[n].ord);
    DropWeighs(slots, id);
    var e :| e in slots && e.id == id && TotalSize(slots) == TotalSize(Drop(slots, id)) + e.size;
    var x :| x in rows && x.ord == e.id.ord && e.size == RowSize(x);
    var i :| 0 <= i < |rows| && rows[i] == x;
    assert i == n;
  }

  lemma {:induction false} NoRowSlots(slots: seq<Slot>)
    requires forall e :: e in slots ==> !e.id.RowId?
    ensures RowSlots(slots) == 0
  {
    if slots != [] {
      NoRowSlots(slots[1..]);
    }
  }

  lemma {:induction false} DropWeighs(slots: seq<Slot>, id: DeliveryId)
    requires InFlight(slots, id)
    ensures exists e :: e in slots && e.id == id && TotalSize(slots) == TotalSize(Drop(slots, id)) + e.size
  {
    if slots[0].id == id {
      assert slots[0] in slots;
    } else {
      var i :| 0 <= i < |slots| && slots[i].id == id;
      assert slots[1..][i - 1].id == id;
      DropWeighs(slots[1..], id);
      var e :| e in slots[1..] && e.id == id && TotalSize(slots[1..]) == TotalSize(Drop(slots[1..], id)) + e.size;
      assert e in slots;
      assert ([slots[0]] + Drop(slots[1..], id))[1..] == Drop(slots[1..], id);
    }
  }

  lemma WeightlessRest(slots: seq<Slot>, id: DeliveryId)
    requires DistinctIds(slots) && ControlsWeightless(slots)
    ensures ControlsWeightless(Drop(slots, id))
  {
    DropMeans(slots, id);
    var rest := Drop(slots, id);
    forall i | 0 <= i < |rest| && rest[i].id.ControlId?
      ensures rest[i].size == 0
    {
      assert rest[i] in slots;
    }
  }

  // In a sound state the bytes booked are those of the first pending rows.
  lemma BytesOfPrefix(s: Sup) returns (n: nat)
    requires Sound(s)
    ensures InFlightPrefix(s, n) && s.inflightBytes == RowBytes(s.spool.rows[..n])
  {
    MarkedPrefix(s, 0);
    n :| InFlightPrefix(s, n);
    PrefixBooked(s, n);
    SlotsWeigh(s.inflight, s.spool.rows[..n]);
  }

  lemma PrefixBooked(s: Sup, n: nat)
    requires NoGhosts(s) && SlotsMatch(s) && InFlightPrefix(s, n)
    ensures forall r :: r in s.spool.rows[..n] ==> InFlight(s.inflight, RowId(r.ord))
    ensures forall e :: e in s.inflight && e.id.RowId? ==>
              exists r :: r in s.spool.rows[..n] && r.ord == e.id.ord && e.size == RowSize(r)
  {
    var rows := s.spool.rows[..n];
    forall r | r in rows
      ensures InFlight(s.inflight, RowId(r.ord))
    {
      var i :| 0 <= i < |rows| && rows[i] == r;
      assert s.spool.rows[i] == r;
    }
    forall e | e in s.inflight && e.id.RowId?
      ensures exists r :: r in rows && r.ord == e.id.ord && e.size == RowSize(r)
    {
      var i :| 0 <= i < |s.inflight| && s.inflight[i] == e;
      assert Present(s, s.inflight[i].id);
      var j :| 0 <= j < |s.spool.rows| && s.spool.rows[j].ord == e.id.ord;
      assert InFlight(s.inflight, RowId(s.spool.rows[j].ord)) && j < n;
      assert rows[j] in rows && s.spool.rows[j] in s.spool.rows;
    }
  }

  // Rows in flight take a slot each.
  lemma {:induction false} RowsTakeSlots(slots: seq<Slot>, rows: seq<Row>)
    requires DistinctIds(slots) && Ordered(rows)
    requires forall i :: 0 <= i < |rows| ==> InFlight(slots, RowId(rows[i].ord))
    ensures |rows| <= |slots|
    decreases |rows|
  {
    if rows != [] {
      var n := |rows| - 1;
      DropMeans(slots, RowId(rows[n].ord));
      RowsTakeSlots(Drop(slots, RowId(rows[n].ord)), rows[..n]);
    }
  }

  // ---- When the byte bound never blocks ------------------------------------------------------------

  ghost predicate AllDeliverable(rows: seq<Row>) {
    forall r :: r in rows ==> Deliverable(r)
  }

  // A run of up to 64 pending rows that the loop can come to: those before its last one
  // can be sent. A single row is always taken into an empty window, so its own size
  // matters only beside a control.
  ghost predicate Reached(s: Sup, i: nat, j: nat) {
    && i < j <= |s.spool.rows| && j - i <= MAX_INFLIGHT_FRAMES && (j - i >= 2 || s.controls != [])
    && AllDeliverable(s.spool.rows[..j - 1])
  }

  // Any such run fits the byte bound.
  ghost predicate Fits(s: Sup) {
    forall i: nat, j: nat :: Reached(s, i, j) ==> RowBytes(s.spool.rows[i..j]) <= MAX_INFLIGHT_BYTES
  }

  lemma {:induction false} FirstUnsentAt(s: Sup, rows: seq<Row>, n: nat)
    requires n <= |rows|
    requires forall i :: 0 <= i < |rows| ==> (InFlight(s.inflight, RowId(rows[i].ord)) <==> i < n)
    ensures FirstUnsent(s, rows) == if n < |rows| then Some(rows[n]) else None
  {
    if n > 0 {
      FirstUnsentAt(s, rows[1..], n - 1);
    }
  }

  // The next row fits beside what is in flight.
  lemma RoomForNext(s: Sup, n: nat)
    requires Sound(s) && Fits(s) && !s.drain.Detached?
    requires s.inflight != [] && |s.inflight| < MAX_INFLIGHT_FRAMES
    requires InFlightPrefix(s, n) && s.inflightBytes == RowBytes(s.spool.rows[..n]) && n < |s.spool.rows|
    ensures s.inflightBytes + RowSize(s.spool.rows[n]) <= MAX_INFLIGHT_BYTES
  {
    var rows := s.spool.rows;
    RowsTakeSlots(s.inflight, rows[..n]);
    if n == 0 {
      LoneControl(s);
    }
    SentDeliverable(s, n);
    assert Reached(s, 0, n + 1);
    var window := rows[0..n + 1];
    assert window[..n] == rows[..n] && window[n] == rows[n];
    assert RowBytes(window) == s.inflightBytes + RowSize(rows[n]);
  }

  // While the loop lives, what is in flight was sent.
  lemma SentDeliverable(s: Sup, n: nat)
    requires SlotsMatch(s) && InFlightPrefix(s, n) && !s.drain.Detached?
    ensures AllDeliverable(s.spool.rows[..n])
  {
    forall r | r in s.spool.rows[..n]
      ensures Deliverable(r)
    {
      var i :| 0 <= i < n && s.spool.rows[i] == r;
      assert InFlight(s.inflight, RowId(s.spool.rows[i].ord));
    }
  }

  lemma FittingNeverBlocked(s: Sup)
    requires Sound(s) && Fits(s) && !s.drain.Detached? && |s.inflight| < MAX_INFLIGHT_FRAMES
    ensures !ByteBlocked(s)
  {
    if s.inflight != [] {
      var n := BytesOfPrefix(s);
      FirstUnsentAt(s, s.spool.rows, n);
      if n < |s.spool.rows| {
        RoomForNext(s, n);
      }
    }
  }

  // A sound loop whose pending rows fit never goes round without awaiting.
  lemma FittingNeverSpins(s: Sup)
    requires Sound(s) && Running(s) && Fits(s)
    ensures !Resume(s).Spins?
  {
    ResumeEffect(s);
    if Resume(s).Spins? {
      SpinMeansBlocked(s);
      FittingNeverBlocked(s);
      SameFirstUnsent(s, s.(event := false, drain := AtTop), s.spool.rows);
    }
  }

  // Without a row in flight, what is in flight is a control.
  lemma LoneControl(s: Sup)
    requires NoGhosts(s) && s.inflight != [] && InFlightPrefix(s, 0)
    ensures s.controls != []
  {
    assert Present(s, s.inflight[0].id);
    if s.inflight[0].id.RowId? {
      var j :| 0 <= j < |s.spool.rows| && s.spool.rows[j].ord == s.inflight[0].id.ord;
      assert InFlight(s.inflight, RowId(s.spool.rows[j].ord));
    }
  }

  // ---- Every interleaving -----------------------------------------------------------------------------

  // Acknowledgements in order: the oldest control, or the oldest row, if it is in flight
  // and was sent.
  predicate InOrder(s: Sup, id: DeliveryId) {
    && InFlight(s.inflight, id)
    && ((s.controls != [] && id == ControlId(s.controls[0].id))
        || (s.spool.rows != [] && id == RowId(s.spool.rows[0].ord) && Deliverable(s.spool.rows[0])))
  }

  // What can happen next: the loop runs on, wakes up, or is acknowledged. An
  // acknowledgement may come at any point, in the middle of a scan too.
  predicate Turn(s: Sup, e: Event) {
    match e
    case ResumeEvent => Running(s)
    case WakeEvent => s.drain.Waiting? && s.event
    case AckEvent(id) => InOrder(s, id)
    case _ => false
  }

  predicate Interleaving(s: Sup, events: seq<Event>)
    decreases |events|
  {
    events == [] || (Turn(s, events[0]) && Interleaving(Handle(s, events[0]), events[1..]))
  }

  function Phase(s: Sup): nat {
    if Running(s) then 1 else if s.event then 2 else 0
  }

  function Measure(s: Sup): int {
    6 * (|s.controls| + |s.spool.rows|) + 3 * (MAX_INFLIGHT_FRAMES - |s.inflight|) + Phase(s)
  }

  // An acknowledgement in order always succeeds: it removes the oldest row or control
  // and its slot, and leaves a scan where it is.
  lemma InOrderAcks(s: Sup, id: DeliveryId)
    requires SupInv(s) && InOrder(s, id)
    ensures var t := ApplyAck(s, id);
            && t.event && t.drain == s.drain && |t.inflight| == |s.inflight| - 1
            && if id.ControlId? then t.controls == s.controls[1..] && t.spool == s.spool
               else t.controls == s.controls && t.spool.rows == s.spool.rows[1..]
  {
    DropMeans(s.inflight, id);
    if id.RowId? {
      OldestRowAcks(s);
      assert Find(s.spool.rows, id.ord) == Some(s.spool.rows[0]);
      assert WithoutFirst(s.spool.rows, s.spool.rows[0].stream) == s.spool.rows[1..];
    }
  }

  lemma FitsOn(s: Sup, t: Sup)
    requires Fits(s)
    requires t.controls != [] ==> s.controls != []
    requires || t.spool.rows == s.spool.rows
             || (s.spool.rows != [] && Deliverable(s.spool.rows[0]) && t.spool.rows == s.spool.rows[1..])
    ensures Fits(t)
  {
    forall i: nat, j: nat | Reached(t, i, j)
      ensures RowBytes(t.spool.rows[i..j]) <= MAX_INFLIGHT_BYTES
    {
      if t.spool.rows == s.spool.rows {
        assert Reached(s, i, j);
      } else {
        assert s.spool.rows[..j] == [s.spool.rows[0]] + t.spool.rows[..j - 1];
        assert Reached(s, i + 1, j + 1);
        assert t.spool.rows[i..j] == s.spool.rows[i + 1..j + 1];
      }
    }
  }

  // A loop is at work, or it ended on a row it booked and could not send.
  ghost predicate AtWork(s: Sup) {
    s.drain.Detached? ==> exists r :: r in s.spool.rows && InFlight(s.inflight, RowId(r.ord)) && !Deliverable(r)
  }

  lemma ResumeProgresses(s: Sup)
    requires Sound(s) && Running(s)
    ensures AtWork(Resume(s).next)
    ensures Resume(s).Spins? || Measure(Resume(s).next) < Measure(s)
    ensures Fits(s) ==> Fits(Resume(s).next) && !Resume(s).Spins?
  {
    ResumeEffect(s);
    ResumeDelivers(s);
    if Fits(s) {
      FittingNeverSpins(s);
      FitsOn(s, Resume(s).next);
    }
    if Resume(s).Raises? {
      var r := Resume(s).row;
      SlotsAppend(s.inflight, Slot(RowId(r.ord), RowSize(r)));
    }
  }

  lemma AckProgresses(s: Sup, id: DeliveryId)
    requires Sound(s) && AtWork(s) && InOrder(s, id)
    ensures var t := ApplyAck(s, id); AtWork(t) && Measure(t) < Measure(s) && (Fits(s) ==> Fits(t))
  {
    InOrderAcks(s, id);
    if Fits(s) {
      FitsOn(s, ApplyAck(s, id));
    }
    if s.drain.Detached? {
      AckAtWork(s, id);
    }
  }

  // The row that ended the loop is not the one acknowledged.
  lemma AckAtWork(s: Sup, id: DeliveryId)
    requires SupInv(s) && AtWork(s) && s.drain.Detached? && InOrder(s, id)
    ensures AtWork(ApplyAck(s, id))
  {
    InOrderAcks(s, id);
    DropMeans(s.inflight, id);
    var r :| r in s.spool.rows && InFlight(s.inflight, RowId(r.ord)) && !Deliverable(r);
    RefusedStays(s, id, r);
    assert InFlight(ApplyAck(s, id).inflight, RowId(r.ord));
  }

  lemma RefusedStays(s: Sup, id: DeliveryId, r: Row)
    requires Inv(s.spool) && InOrder(s, id) && r in s.spool.rows && !Deliverable(r)
    ensures RowId(r.ord) != id
    ensures r in (if id.RowId? then s.spool.rows[1..] else s.spool.rows)
  {
    if id.RowId? {
      var i :| 0 <= i < |s.spool.rows| && s.spool.rows[i] == r;
      assert i > 0 && s.spool.rows[0].ord < s.spool.rows[i].ord && s.spool.rows[1..][i - 1] == r;
    }
  }

  // Every turn but a spin comes nearer to the end.
  lemma TurnProgresses(s: Sup, e: Event)
    requires Sound(s) && AtWork(s) && Turn(s, e)
    ensures Sound(Handle(s, e)) && AtWork(Handle(s, e))
    ensures (e.ResumeEvent? && Resume(s).Spins?) || Measure(Handle(s, e)) < Measure(s)
    ensures Fits(s) ==> Fits(Handle(s, e)) && Measure(Handle(s, e)) < Measure(s)
  {
    HandleSound(s, e);
    match e
    case ResumeEvent => ResumeProgresses(s);
    case AckEvent(id) => AckProgresses(s, id);
    case WakeEvent => if Fits(s) { FitsOn(s, Wake(s)); }
    case _ =>
  }

  ghost predicate Drained(s: Sup) {
    s.controls == [] && s.spool.rows == [] && s.inflight == [] && s.inflightBytes == 0
  }

  // The loop is over, and the oldest row is one that cannot be sent.
  ghost predicate Halted(s: Sup) {
    s.drain.Detached? && s.spool.rows != [] && !Deliverable(s.spool.rows[0])
  }

  // Where nothing can happen, nothing is left, or nothing that can be sent.
  lemma TurnOrDrained(s: Sup)
    requires Sound(s) && AtWork(s)
    ensures Drained(s) || Halted(s) || exists e :: Turn(s, e)
  {
    if s.drain.Detached? {
      HaltedOrOldest(s);
    } else if Running(s) {
      assert Turn(s, ResumeEvent);
    } else if s.event {
      assert Turn(s, WakeEvent);
    } else if s.controls == [] && s.spool.rows == [] {
      EmptyWindow(s);
    } else {
      var id := StuckHasOldest(s);
      assert Turn(s, AckEvent(id));
    }
  }

  // What went out before the loop ended can still be acknowledged.
  lemma HaltedOrOldest(s: Sup)
    requires SupInv(s) && AtWork(s) && s.drain.Detached?
    ensures Halted(s) || exists e :: Turn(s, e)
  {
    var r :| r in s.spool.rows && InFlight(s.inflight, RowId(r.ord)) && !Deliverable(r);
    var i :| 0 <= i < |s.spool.rows| && s.spool.rows[i] == r;
    var oldest := s.spool.rows[0];
    assert oldest.ord <= s.spool.rows[i].ord <= s.hiRow;
    assert InFlight(s.inflight, RowId(s.spool.rows[0].ord));
    if Deliverable(oldest) {
      assert Turn(s, AckEvent(RowId(oldest.ord)));
    }
  }

  // When nothing is sendable and something is pending, the oldest delivery is out.
  lemma StuckHasOldest(s: Sup) returns (id: DeliveryId)
    requires SupInv(s) && NoGhosts(s) && SlotsMatch(s) && !s.drain.Detached? && !HasSendable(s)
    requires s.controls != [] || s.spool.rows != []
    ensures InOrder(s, id)
  {
    if s.spool.rows != [] && InFlight(s.inflight, RowId(s.spool.rows[0].ord)) {
      assert Deliverable(s.spool.rows[0]);
    }
    id := if s.controls != [] && InFlight(s.inflight, ControlId(s.controls[0].id))
          then ControlId(s.controls[0].id)
          else if s.spool.rows != [] then RowId(s.spool.rows[0].ord) else ControlId(s.controls[0].id);
    if |s.inflight| >= MAX_INFLIGHT_FRAMES {
      match s.inflight[0].id
      case ControlId(n) =>
        assert Present(s, ControlId(n));
        var i :| 0 <= i < |s.controls| && s.controls[i].id == n;
        assert s.controls[0].id <= n <= s.hiControl;
      case RowId(ord) =>
        assert Present(s, RowId(ord));
        var i :| 0 <= i < |s.spool.rows| && s.spool.rows[i].ord == ord;
        assert s.spool.rows[0].ord <= ord <= s.hiRow;
    }
  }

  lemma EmptyWindow(s: Sup)
    requires SupInv(s) && NoGhosts(s) && s.controls == [] && s.spool.rows == []
    ensures Drained(s)
  {
    assert s.inflight != [] ==> Present(s, s.inflight[0].id);
  }

  // From any sound state, the loop running, suspended or asleep, whose rows fit: every
  // interleaving of the loop, its wake-ups and in-order acknowledgements is over after
  // a bounded number of turns. One that cannot go on has drained everything, if every
  // row can be sent, and otherwise everything before the first row that cannot.
  lemma {:induction false} EveryInterleavingDrains(s: Sup, events: seq<Event>)
    requires Sound(s) && AtWork(s) && Fits(s) && Interleaving(s, events)
    ensures var t := HandleAll(s, events);
            && Sound(t) && Fits(t)
            && |events| <= Measure(s) - Measure(t)
            && Acknowledged(s.spool.rows, t.spool.rows)
            && ((exists e :: Turn(t, e)) || if AllDeliverable(s.spool.rows) then Drained(t) else Halted(t))
    ensures |events| <= 6 * (|s.controls| + |s.spool.rows|) + 3 * MAX_INFLIGHT_FRAMES + 2
    decreases |events|
  {
    if events == [] {
      TurnOrDrained(s);
    } else {
      var t := Handle(s, events[0]);
      TurnProgresses(s, events[0]);
      TurnAcknowledges(s, events[0]);
      EveryInterleavingDrains(t, events[1..]);
      AcknowledgedMore(s.spool.rows, t.spool.rows, HandleAll(s, events).spool.rows);
    }
    MeasureBounds(HandleAll(s, events));
  }

  // Only rows that can be sent left, oldest first.
  ghost predicate Acknowledged(before: seq<Row>, after: seq<Row>) {
    && |after| <= |before| && after == before[|before| - |after|..]
    && AllDeliverable(before[..|before| - |after|])
  }

  lemma TurnAcknowledges(s: Sup, e: Event)
    requires Sound(s) && Turn(s, e)
    ensures Acknowledged(s.spool.rows, Handle(s, e).spool.rows)
    ensures AllDeliverable(s.spool.rows) <==> AllDeliverable(Handle(s, e).spool.rows)
  {
    match e
    case AckEvent(id) =>
      InOrderAcks(s, id);
      if id.RowId? {
        assert s.spool.rows == [s.spool.rows[0]] + s.spool.rows[1..];
      }
    case ResumeEvent => ResumeEffect(s);
    case _ =>
  }

  lemma AcknowledgedMore(a: seq<Row>, b: seq<Row>, c: seq<Row>)
    requires Acknowledged(a, b) && Acknowledged(b, c)
    ensures Acknowledged(a, c)
  {
    var m, n := |a| - |b|, |b| - |c|;
    assert a[..m + n] == a[..m] + b[..n];
  }

  lemma MeasureBounds(s: Sup)
    requires SupInv(s)
    ensures Measure(s) >= 0
  {
  }

  // ---- A removal that leaves the loop asleep -------------------------------------------------------

  lemma {:induction false} HandleConcat(s: Sup, a: seq<Event>, b: seq<Event>)
    ensures HandleAll(s, a + b) == HandleAll(HandleAll(s, a), b)
    decreases |a|
  {
    if a == [] {
      assert a + b == b;
    } else {
      assert (a + b)[1..] == a[1..] + b;
      HandleConcat(Handle(s, a[0]), a[1..], b);
    }
  }

  // Without an acknowledgement the loop sends what it can and falls asleep.
  lemma {:induction false} RunsToSleep(s: Sup) returns (events: seq<Event>)
    requires Sound(s) && Running(s) && Fits(s) && AllDeliverable(s.spool.rows)
    ensures var t := HandleAll(s, events);
            && Sound(t) && t.drain.Waiting? && !t.event && !HasSendable(t)
            && t.spool == s.spool && t.controls == s.controls
    decreases MAX_INFLIGHT_FRAMES - |s.inflight|
  {
    TurnProgresses(s, ResumeEvent);
    ResumeEffect(s);
    ResumeDelivers(s);
    FittingNeverSpins(s);
    var t := Handle(s, ResumeEvent);
    if Resume(s).Waits? {
      events := [ResumeEvent];
      assert events[1..] == [];
    } else {
      var rest := RunsToSleep(t);
      events := [ResumeEvent] + rest;
      assert events[1..] == rest;
    }
  }

  // Behind the first rows, all rows are of one session.
  ghost predicate Behind(rows: seq<Row>, first: seq<Row>, f: Frame, n: nat) {
    && first <= rows && |rows| == |first| + n
    && forall i :: |first| <= i < |rows| ==> rows[i].frame == f && rows[i].stream == f.WireStream()
  }

  // A spool that was only ever written to, with few and short frames.
  ghost predicate Light(s: Sup) {
    && s.spool.acked == map[] && s.spool.lastOrd == |s.spool.rows|
    && forall r :: r in s.spool.rows ==>
         && r.num <= |s.spool.rows| && r.ord <= |s.spool.rows| && RowSize(r) == 0
         && ShortNames(r.frame)
  }

  predicate ShortNames(f: Frame) {
    |f.agentId| + |f.sid| + |f.pid| + |f.kind| <= 1000
  }

  lemma LightDeliverable(s: Sup)
    requires Light(s) && |s.spool.rows| <= 1000
    ensures AllDeliverable(s.spool.rows) && Weightless(s.spool.rows)
  {
    forall r | r in s.spool.rows
      ensures Deliverable(r)
    {
      ShortIsDeliverable(r);
    }
  }

  lemma EmitsOne(s: Sup, f: Frame)
    requires Sound(s) && s.drain.AtTop? && f.spoolSid.None? && f.spoolPid.None? && f.data == "" && ShortNames(f)
    requires Light(s)
    ensures var t := Handle(s, OutputEvent(f, 0));
            && Sound(t) && t.drain.AtTop? && t.controls == s.controls && Light(t)
            && Behind(t.spool.rows, s.spool.rows, f, 1)
  {
    HandleSound(s, OutputEvent(f, 0));
    assert f.Emitted() == f && f.Identity() == f.WireStream();
    WithoutBytes(s.spool.rows, f.WireStream());
  }

  // n frames of one session, emitted one after the other.
  lemma {:induction false} EmitsMany(s: Sup, f: Frame, n: nat) returns (events: seq<Event>)
    requires Sound(s) && s.drain.AtTop? && f.spoolSid.None? && f.spoolPid.None? && f.data == "" && ShortNames(f)
    requires Light(s)
    ensures var t := HandleAll(s, events);
            && Sound(t) && t.drain.AtTop? && t.controls == s.controls && Light(t)
            && Behind(t.spool.rows, s.spool.rows, f, n)
    decreases n
  {
    if n == 0 {
      events := [];
    } else {
      EmitsOne(s, f);
      var t := Handle(s, OutputEvent(f, 0));
      var rest := EmitsMany(t, f, n - 1);
      events := [OutputEvent(f, 0)] + rest;
      assert events[1..] == rest;
      BehindMore(HandleAll(t, rest).spool.rows, t.spool.rows, s.spool.rows, f, n - 1);
    }
  }

  lemma BehindMore(rows: seq<Row>, middle: seq<Row>, first: seq<Row>, f: Frame, n: nat)
    requires Behind(rows, middle, f, n) && Behind(middle, first, f, 1)
    ensures Behind(rows, first, f, n + 1)
  {
  }

  ghost predicate Weightless(rows: seq<Row>) {
    forall r :: r in rows ==> RowSize(r) == 0
  }

  lemma {:induction false} WeightlessBytes(rows: seq<Row>)
    requires Weightless(rows)
    ensures RowBytes(rows) == 0
  {
    if rows != [] {
      WeightlessBytes(rows[..|rows| - 1]);
      assert rows[|rows| - 1] in rows;
    }
  }

  lemma WeightlessFits(s: Sup)
    requires Weightless(s.spool.rows)
    ensures Fits(s)
  {
    forall i: nat, j: nat | i < j <= |s.spool.rows|
      ensures RowBytes(s.spool.rows[i..j]) <= MAX_INFLIGHT_BYTES
    {
      WeightlessBytes(s.spool.rows[i..j]);
    }
  }

  lemma {:induction false} StreamsOfMeans(rows: seq<Row>, agents: set<string>)
    ensures forall k :: k in StreamsOf(rows, agents) <==>
              exists r :: r in rows && r.frame.agentId in agents && r.frame.WireStream() == k
  {
    if rows != [] {
      StreamsOfMeans(rows[1..], agents);
      assert rows == [rows[0]] + rows[1..];
    }
  }

  // Asleep with a full window: rows of one agent in flight, a row of another behind.
  lemma FullOfOneAgent(s: Sup, f: Frame, g: Frame)
    requires Sound(s) && s.drain.Waiting? && !s.event && !HasSendable(s) && s.controls == []
    requires |s.spool.rows| == MAX_INFLIGHT_FRAMES + 1 && f.WireStream() != g.WireStream() && f.agentId != g.agentId
    requires forall i :: 0 <= i < MAX_INFLIGHT_FRAMES ==> s.spool.rows[i].frame == f && s.spool.rows[i].stream == f.WireStream()
    requires s.spool.rows[MAX_INFLIGHT_FRAMES].frame == g && s.spool.rows[MAX_INFLIGHT_FRAMES].stream == g.WireStream()
    ensures LosesWakeup(s, {f.agentId}, [])
  {
    var rows := s.spool.rows;
    var n := BytesOfPrefix(s);
    RowsTakeSlots(s.inflight, rows[..n]);
    var first, last := rows[0], rows[MAX_INFLIGHT_FRAMES];
    assert !InFlight(s.inflight, RowId(last.ord));
    assert |s.inflight| >= MAX_INFLIGHT_FRAMES;
    if n == 0 {
      LoneControl(s);
    }
    StreamsOfMeans(rows, {f.agentId});
    assert first in rows && last in rows;
    assert RowStays(s, last, {f.agentId}, []);
    assert InFlight(s.inflight, RowId(first.ord));
    var i :| 0 <= i < |s.inflight| && s.inflight[i].id == RowId(first.ord);
    forall r | RowStays(s, r, {f.agentId}, [])
      ensures r.ord != first.ord
    {
      assert r != first;
      if r.ord == first.ord {
        SameOrdSameRow(s.spool, r, first);
      }
    }
  }

  // 64 rows of one agent and one of another, all emitted, and the loop asleep.
  lemma FillsWithOneAgent(s: Sup, f: Frame, g: Frame) returns (events: seq<Event>)
    requires Sound(s) && s.drain.AtTop? && s.controls == [] && s.spool.rows == [] && Light(s)
    requires ShortNames(f) && ShortNames(g)
    requires f.spoolSid.None? && f.spoolPid.None? && f.data == "" && g.spoolSid.None? && g.spoolPid.None? && g.data == ""
    requires f.WireStream() != g.WireStream() && f.agentId != g.agentId
    ensures Sound(HandleAll(s, events)) && LosesWakeup(HandleAll(s, events), {f.agentId}, [])
  {
    var many := EmitsMany(s, f, MAX_INFLIGHT_FRAMES);
    var t := HandleAll(s, many);
    var one := EmitsMany(t, g, 1);
    var u := HandleAll(t, one);
    LightDeliverable(u);
    WeightlessFits(u);
    var sleep := RunsToSleep(u);
    FullOfOneAgent(HandleAll(u, sleep), f, g);
    HandleConcat(s, many, one);
    HandleConcat(s, many + one, sleep);
    events := many + one + sleep;
  }

  // After the removal the loop sleeps, nothing has woken it, and something could be sent.
  ghost predicate AsleepOverWork(s: Sup, agents: set<string>) {
    && LosesWakeup(s, agents, [])
    && var t := RemoveAgents(s, agents, []);
       t.drain.Waiting? && Wake(t) == t && HasSendable(t)
  }

  lemma LostMeansAsleep(s: Sup, agents: set<string>)
    requires Sound(s) && LosesWakeup(s, agents, [])
    ensures AsleepOverWork(s, agents)
  {
    RemovalWakes(s, agents, []);
  }

  lemma AttachFirst(rest: seq<Event>)
    ensures HandleAll(Start(EMPTY), [AttachEvent] + rest) == HandleAll(Attach(Start(EMPTY)), rest)
  {
    assert ([AttachEvent] + rest)[1..] == rest;
  }

  lemma AttachedSound()
    ensures Sound(Attach(Start(EMPTY)))
  {
    StartSound(EMPTY);
    HandleSound(Start(EMPTY), AttachEvent);
  }

  lemma AttachedFresh()
    ensures Light(Attach(Start(EMPTY)))
    ensures Attach(Start(EMPTY)).drain.AtTop? && Attach(Start(EMPTY)).controls == [] && Attach(Start(EMPTY)).spool.rows == []
  {
  }

  // A full window of one agent with a row of another behind it loses the wake-up.
  lemma FullWindowLoses(f: Frame, g: Frame) returns (events: seq<Event>)
    requires f.spoolSid.None? && f.spoolPid.None? && f.data == "" && g.spoolSid.None? && g.spoolPid.None? && g.data == ""
    requires f.WireStream() != g.WireStream() && f.agentId != g.agentId && ShortNames(f) && ShortNames(g)
    ensures AsleepOverWork(HandleAll(Start(EMPTY), events), {f.agentId})
  {
    AttachedSound();
    AttachedFresh();
    var start := Attach(Start(EMPTY));
    var rest := FillsWithOneAgent(start, f, g);
    LostMeansAsleep(HandleAll(start, rest), {f.agentId});
    AttachFirst(rest);
    events := [AttachEvent] + rest;
  }

  // So it happens.
  lemma RemovalLosesWakeup()
    ensures exists events: seq<Event>, agents: set<string> :: AsleepOverWork(HandleAll(Start(EMPTY), events), agents)
  {
    var f := Frame(None, None, "first", "s", "p", "o", "");
    var g := Frame(None, None, "second", "t", "q", "o", "");
    assert "s"[0] != "t"[0] && |"first"| != |"second"|;
    var events := FullWindowLoses(f, g);
  }

  // ---- When it does block ---------------------------------------------------------------------------

  // The window is empty and the scan, if one is suspended, stands at the head of what
  // is left to send.
  ghost predicate AtHead(s: Sup) {
    && s.inflight == [] && s.inflightBytes == 0
    && match s.drain
       case AtTop => true
       case InControls(rest) => rest == s.controls
       case InRows(rest) => rest == s.spool.rows && s.controls == []
       case _ => false
  }

  lemma ControlGoes(s: Sup)
    requires AtHead(s) && s.controls != []
    ensures Running(s) && Resume(s) == SendControl(s, s.controls[0], s.controls[1..])
    ensures var sent := Resume(s).next; var id := ControlId(s.controls[0].id); var t := ApplyAck(sent, id);
            && InFlight(sent.inflight, id) && InOrder(sent, id)
            && AtHead(t) && t.spool == s.spool && t.controls == s.controls[1..]
  {
    assert Resume(s).next.inflight[0].id == ControlId(s.controls[0].id);
  }

  lemma RowGoes(s: Sup)
    requires AtHead(s) && s.controls == [] && s.spool.rows != []
    ensures Running(s) && Resume(s) == SendRow(s, s.spool.rows[0], s.spool.rows[1..])
  {
    var rows := s.spool.rows;
    assert !InFlight(s.inflight, RowId(rows[0].ord)) && !WindowFull(s, rows[0]);
    assert ScanRows(s, rows, true) == SendRow(s, rows[0], rows[1..]);
    assert ScanRows(s, rows, false) == SendRow(s, rows[0], rows[1..]);
    assert ScanControls(s, [], true) == ScanRows(s, rows, true);
    assert ScanControls(s, [], false) == ScanRows(s, rows, false);
  }

  // An interleaving that ends in the endless round.
  ghost predicate SpinsAfter(s: Sup, events: seq<Event>) {
    Interleaving(s, events) && var t := HandleAll(s, events); Running(t) && Resume(t).Spins?
  }

  lemma SpinsSooner(s: Sup, e: Event, events: seq<Event>)
    requires Turn(s, e) && SpinsAfter(Handle(s, e), events)
    ensures SpinsAfter(s, [e] + events)
  {
    assert ([e] + events)[1..] == events;
  }

  // The first row that is not in flight does not fit.
  lemma BlockedSpins(s: Sup, n: nat)
    requires Running(s) && |s.inflight| < MAX_INFLIGHT_FRAMES && s.inflight != []
    requires !UnsentControl(s) && InFlightPrefix(s, n) && n < |s.spool.rows|
    requires s.inflightBytes + RowSize(s.spool.rows[n]) > MAX_INFLIGHT_BYTES
    requires s.drain.InControls? ==> s.drain.controls == []
    requires s.drain.InRows? ==> s.drain.rows == s.spool.rows[n..]
    ensures Resume(s).Spins?
  {
    var rows := s.spool.rows;
    FirstUnsentAt(s, rows, n);
    ScanRowsMeans(s, rows);
    ScanControlsMeans(s, s.controls);
    assert !InFlight(s.inflight, RowId(rows[n].ord)) && WindowFull(s, rows[n]);
    assert ScanRows(s, rows, false) == EndPass(s, false);
    assert ScanControls(s, s.controls, false) == EndPass(s, false);
    FullScanEnds(s, rows, n);
  }

  // A scan that comes to such a row ends its pass.
  lemma {:induction false} FullScanEnds(s: Sup, rows: seq<Row>, n: nat)
    requires n < |rows| && WindowFull(s, rows[n])
    requires forall i :: 0 <= i < |rows| ==> (InFlight(s.inflight, RowId(rows[i].ord)) <==> i < n)
    ensures ScanRows(s, rows, true) == EndPass(s, true) && ScanRows(s, rows[n..], true) == EndPass(s, true)
  {
    if n > 0 {
      FullScanEnds(s, rows[1..], n - 1);
      assert rows[1..][n - 1..] == rows[n..];
    }
  }

  // The first m rows are in flight and nothing else, with the scan behind them.
  ghost predicate Filled(s: Sup, m: nat) {
    && s.controls == [] && Ordered(s.spool.rows) && 0 < m <= |s.spool.rows| && |s.inflight| == m
    && InFlightPrefix(s, m) && s.inflightBytes == RowBytes(s.spool.rows[..m])
    && s.drain == InRows(s.spool.rows[m..])
  }

  lemma FillStarts(s: Sup)
    requires SupInv(s) && AtHead(s) && s.controls == [] && s.spool.rows != [] && Deliverable(s.spool.rows[0])
    ensures Running(s) && Filled(Resume(s).next, 1) && Resume(s).next.spool == s.spool
  {
    RowGoes(s);
    var rows := s.spool.rows;
    var t := Resume(s).next;
    assert t.inflight[0].id == RowId(rows[0].ord);
    assert rows[..1][..0] == [] && rows[..1][0] == rows[0];
    forall i | 0 <= i < |rows|
      ensures InFlight(t.inflight, RowId(rows[i].ord)) <==> i < 1
    {
      assert i > 0 ==> rows[0].ord < rows[i].ord;
    }
  }

  lemma FillSteps(s: Sup, m: nat)
    requires Filled(s, m) && m < |s.spool.rows| && m < MAX_INFLIGHT_FRAMES && Deliverable(s.spool.rows[m])
    requires RowBytes(s.spool.rows[..m + 1]) <= MAX_INFLIGHT_BYTES
    ensures Turn(s, ResumeEvent) && Filled(Handle(s, ResumeEvent), m + 1) && Handle(s, ResumeEvent).spool == s.spool
  {
    var rows := s.spool.rows;
    assert rows[..m + 1][..m] == rows[..m] && rows[m..][1..] == rows[m + 1..];
    assert Resume(s) == SendRow(s, rows[m], rows[m + 1..]);
    OneMoreInFlight(s.inflight, rows, m, RowSize(rows[m]));
  }

  lemma OneMoreInFlight(slots: seq<Slot>, rows: seq<Row>, m: nat, size: nat)
    requires Ordered(rows) && m < |rows|
    requires forall i :: 0 <= i < |rows| ==> (InFlight(slots, RowId(rows[i].ord)) <==> i < m)
    ensures forall i :: 0 <= i < |rows| ==> (InFlight(slots + [Slot(RowId(rows[m].ord), size)], RowId(rows[i].ord)) <==> i < m + 1)
  {
    SlotsAppend(slots, Slot(RowId(rows[m].ord), size));
    forall i | 0 <= i < |rows|
      ensures rows[i].ord == rows[m].ord <==> i == m
    {}
  }

  lemma FilledSpins(s: Sup, m: nat)
    requires Filled(s, m) && m < |s.spool.rows| && m < MAX_INFLIGHT_FRAMES
    requires RowBytes(s.spool.rows[..m + 1]) > MAX_INFLIGHT_BYTES
    ensures SpinsAfter(s, [])
  {
    var rows := s.spool.rows;
    assert rows[..m + 1][..m] == rows[..m] && rows[..m + 1][m] == rows[m];
    BlockedSpins(s, m);
  }

  lemma {:induction false} FillSpins(s: Sup, m: nat, j: nat) returns (events: seq<Event>)
    requires Filled(s, m) && m < j <= |s.spool.rows| && j <= MAX_INFLIGHT_FRAMES
    requires RowBytes(s.spool.rows[..j]) > MAX_INFLIGHT_BYTES && AllDeliverable(s.spool.rows[..j - 1])
    ensures SpinsAfter(s, events)
    decreases j - m
  {
    if RowBytes(s.spool.rows[..m + 1]) > MAX_INFLIGHT_BYTES {
      FilledSpins(s, m);
      events := [];
    } else {
      assert s.spool.rows[m] in s.spool.rows[..j - 1];
      FillSteps(s, m);
      var rest := FillSpins(Handle(s, ResumeEvent), m + 1, j);
      SpinsSooner(s, ResumeEvent, rest);
      events := [ResumeEvent] + rest;
    }
  }

  // Sending the oldest control and having it acknowledged.
  lemma ControlPasses(s: Sup)
    requires SupInv(s) && AtHead(s) && s.controls != []
    ensures var e := AckEvent(ControlId(s.controls[0].id)); var sent := Handle(s, ResumeEvent); var t := Handle(sent, e);
            && Turn(s, ResumeEvent) && Turn(sent, e)
            && SupInv(t) && AtHead(t) && t.spool == s.spool && t.controls == s.controls[1..]
  {
    ControlGoes(s);
    HandleInv(s, ResumeEvent);
    HandleInv(Handle(s, ResumeEvent), AckEvent(ControlId(s.controls[0].id)));
  }

  lemma RowPasses(s: Sup)
    requires SupInv(s) && AtHead(s) && s.controls == [] && s.spool.rows != [] && Deliverable(s.spool.rows[0])
    ensures var e := AckEvent(RowId(s.spool.rows[0].ord)); var sent := Handle(s, ResumeEvent); var t := Handle(sent, e);
            && Turn(s, ResumeEvent) && Turn(sent, e)
            && SupInv(t) && AtHead(t) && t.spool.rows == s.spool.rows[1..] && t.controls == []
  {
    FillStarts(s);
    RowGoes(s);
    var e := AckEvent(RowId(s.spool.rows[0].ord));
    var sent := Handle(s, ResumeEvent);
    HandleInv(s, ResumeEvent);
    InOrderAcks(sent, RowId(s.spool.rows[0].ord));
    HandleInv(sent, e);
  }

  lemma TwoSooner(s: Sup, a: Event, b: Event, events: seq<Event>)
    requires Turn(s, a) && Turn(Handle(s, a), b) && SpinsAfter(Handle(Handle(s, a), b), events)
    ensures SpinsAfter(s, [a] + ([b] + events))
  {
    SpinsSooner(Handle(s, a), b, events);
    SpinsSooner(s, a, [b] + events);
  }

  lemma RestDeliverable(rows: seq<Row>, n: nat)
    requires 0 < n <= |rows| && AllDeliverable(rows[..n])
    ensures Deliverable(rows[0]) && AllDeliverable(rows[1..][..n - 1])
  {
    assert rows[..n] == [rows[0]] + rows[1..][..n - 1];
  }

  // A run of rows that is too large is reached and fills the window.
  lemma {:induction false} WindowSpins(s: Sup, i: nat, j: nat) returns (events: seq<Event>)
    requires SupInv(s) && AtHead(s)
    requires i + 2 <= j <= |s.spool.rows| && j - i <= MAX_INFLIGHT_FRAMES
    requires RowBytes(s.spool.rows[i..j]) > MAX_INFLIGHT_BYTES && AllDeliverable(s.spool.rows[..j - 1])
    ensures SpinsAfter(s, events)
    decreases |s.controls| + |s.spool.rows|
  {
    assert s.spool.rows[..j - 1][0] == s.spool.rows[0];
    if s.controls != [] {
      var ack := AckEvent(ControlId(s.controls[0].id));
      ControlPasses(s);
      var rest := WindowSpins(Handle(Handle(s, ResumeEvent), ack), i, j);
      TwoSooner(s, ResumeEvent, ack, rest);
      events := [ResumeEvent] + ([ack] + rest);
    } else if i > 0 {
      var ack := AckEvent(RowId(s.spool.rows[0].ord));
      RowPasses(s);
      RestDeliverable(s.spool.rows, j - 1);
      assert s.spool.rows[1..][i - 1..j - 1] == s.spool.rows[i..j];
      var rest := WindowSpins(Handle(Handle(s, ResumeEvent), ack), i - 1, j - 1);
      TwoSooner(s, ResumeEvent, ack, rest);
      events := [ResumeEvent] + ([ack] + rest);
    } else {
      assert s.spool.rows[0..j] == s.spool.rows[..j];
      events := HeadSpins(s, j);
    }
  }

  lemma HeadSpins(s: Sup, j: nat) returns (events: seq<Event>)
    requires SupInv(s) && AtHead(s) && s.controls == []
    requires 2 <= j <= |s.spool.rows| && j <= MAX_INFLIGHT_FRAMES
    requires RowBytes(s.spool.rows[..j]) > MAX_INFLIGHT_BYTES && AllDeliverable(s.spool.rows[..j - 1])
    ensures SpinsAfter(s, events)
  {
    assert s.spool.rows[..j - 1][0] == s.spool.rows[0];
    FillStarts(s);
    HandleInv(s, ResumeEvent);
    var rest := FillSpins(Handle(s, ResumeEvent), 1, j);
    SpinsSooner(s, ResumeEvent, rest);
    events := [ResumeEvent] + rest;
  }

  // One control is in flight and nothing else, with the scan before the rows.
  ghost predicate Beside(s: Sup) {
    && |s.controls| == 1 && s.inflight == [Slot(ControlId(s.controls[0].id), 0)] && s.inflightBytes == 0
    && (s.drain == InControls([]) || s.drain == InRows(s.spool.rows))
  }

  lemma BesideSends(s: Sup)
    requires SupInv(s) && Beside(s) && s.spool.rows != [] && RowSize(s.spool.rows[0]) <= MAX_INFLIGHT_BYTES
    requires Deliverable(s.spool.rows[0])
    ensures var ack := AckEvent(RowId(s.spool.rows[0].ord)); var sent := Handle(s, ResumeEvent); var t := Handle(sent, ack);
            && Turn(s, ResumeEvent) && Turn(sent, ack)
            && SupInv(t) && Beside(t) && t.spool.rows == s.spool.rows[1..]
  {
    var rows := s.spool.rows;
    assert !InFlight(s.inflight, RowId(rows[0].ord)) && !WindowFull(s, rows[0]);
    assert ScanControls(s, [], true) == ScanRows(s, rows, true) == SendRow(s, rows[0], rows[1..]);
    var sent := Handle(s, ResumeEvent);
    assert sent.inflight[1].id == RowId(rows[0].ord);
    HandleInv(s, ResumeEvent);
    InOrderAcks(sent, RowId(rows[0].ord));
    HandleInv(sent, AckEvent(RowId(rows[0].ord)));
    BesideDrops(s.inflight[0], Slot(RowId(rows[0].ord), RowSize(rows[0])));
  }

  lemma BesideDrops(control: Slot, row: Slot)
    requires control.id != row.id
    ensures Drop([control, row], row.id) == [control] && TotalSize([control]) == control.size
    ensures TotalSize([control, row]) == control.size + row.size
  {
    assert [control, row][1..] == [row] && [row][1..] == [] && [control][1..] == [];
  }

  lemma {:induction false} BesideSpins(s: Sup, i: nat) returns (events: seq<Event>)
    requires SupInv(s) && Beside(s) && i < |s.spool.rows| && RowSize(s.spool.rows[i]) > MAX_INFLIGHT_BYTES
    requires AllDeliverable(s.spool.rows[..i])
    ensures SpinsAfter(s, events)
    decreases |s.spool.rows|
  {
    if RowSize(s.spool.rows[0]) > MAX_INFLIGHT_BYTES {
      assert InFlight(s.inflight, ControlId(s.controls[0].id)) by { assert s.inflight[0].id == ControlId(s.controls[0].id); }
      BlockedSpins(s, 0);
      events := [];
    } else {
      var ack := AckEvent(RowId(s.spool.rows[0].ord));
      RestDeliverable(s.spool.rows, i);
      BesideSends(s);
      var rest := BesideSpins(Handle(Handle(s, ResumeEvent), ack), i - 1);
      TwoSooner(s, ResumeEvent, ack, rest);
      events := [ResumeEvent] + ([ack] + rest);
    }
  }

  // A single row that is too large is reached while a control is still in flight.
  lemma {:induction false} LoneRowSpins(s: Sup, i: nat) returns (events: seq<Event>)
    requires SupInv(s) && AtHead(s) && s.controls != []
    requires i < |s.spool.rows| && RowSize(s.spool.rows[i]) > MAX_INFLIGHT_BYTES
    requires AllDeliverable(s.spool.rows[..i])
    ensures SpinsAfter(s, events)
    decreases |s.controls|
  {
    if |s.controls| > 1 {
      var ack := AckEvent(ControlId(s.controls[0].id));
      ControlPasses(s);
      var rest := LoneRowSpins(Handle(Handle(s, ResumeEvent), ack), i);
      TwoSooner(s, ResumeEvent, ack, rest);
      events := [ResumeEvent] + ([ack] + rest);
    } else {
      ControlGoes(s);
      HandleInv(s, ResumeEvent);
      var rest := BesideSpins(Handle(s, ResumeEvent), i);
      SpinsSooner(s, ResumeEvent, rest);
      events := [ResumeEvent] + rest;
    }
  }

  lemma {:induction false} FittingNeverSpinsAfter(s: Sup, events: seq<Event>)
    requires Sound(s) && AtWork(s) && Fits(s)
    ensures !SpinsAfter(s, events)
    decreases |events|
  {
    if events == [] {
      if Running(s) {
        FittingNeverSpins(s);
      }
    } else if Turn(s, events[0]) {
      TurnProgresses(s, events[0]);
      FittingNeverSpinsAfter(Handle(s, events[0]), events[1..]);
    }
  }

  // After an attach, some interleaving with in-order acknowledgements ends in the
  // endless round exactly when some run of up to 64 pending rows that the loop can come
  // to exceeds the byte bound: two rows or more, or one while a control is pending.
  lemma SpinsIffTooLarge(s: Sup)
    requires Sound(s)
    ensures (exists events :: SpinsAfter(Attach(s), events)) <==> !Fits(Attach(s))
  {
    var t := Attach(s);
    HandleSound(s, AttachEvent);
    if Fits(t) {
      forall events
        ensures !SpinsAfter(t, events)
      {
        FittingNeverSpinsAfter(t, events);
      }
    } else {
      var i: nat, j: nat :| Reached(t, i, j) && RowBytes(t.spool.rows[i..j]) > MAX_INFLIGHT_BYTES;
      if j - i >= 2 {
        var events := WindowSpins(t, i, j);
      } else {
        assert t.spool.rows[i..j] == [t.spool.rows[i]] && [t.spool.rows[i]][..0] == [];
        assert RowBytes([t.spool.rows[i]]) == RowBytes([]) + RowSize(t.spool.rows[i]);
        assert t.spool.rows[..j - 1] == t.spool.rows[..i];
        var events := LoneRowSpins(t, i);
      }
    }
  }
}
