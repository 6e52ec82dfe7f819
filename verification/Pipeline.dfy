// The durable-output protocol end to end, as one step system: sessions emit into
// the spool, the supervisor's window feeds a transport, the transport feeds a
// socket, the server refuses, classifies, commits and answers, and the acknowledgements
// travel back. Connections break anywhere and are replaced, their leftovers
// interleave with the new one, supervisor and server restart at any point. A row too
// large for the channel ends the drain loop, and a loop that goes round without
// awaiting stops everything else of its process.
module Pipeline {
  import opened Common
  import opened Ipc
  import Spool
  import Sender
  import Recording

  // A message from the transport to the supervisor.
  datatype ToSupervisor = DeliveryAck(ord: nat) | FenceMessage(stream: Stream)

  // An identity the transport tracks until the server answers.
  datatype Ident = Ident(stream: Stream, num: nat)

  // One attachment with its transport and its socket. Rows travel with their `ord`
  // as delivery id up to the transport; the server looks at the frame only.
  datatype Conn = Conn(
    open: bool,
    ipc: seq<Spool.Row>,                   // handed over, not yet read by the transport
    outstanding: map<Ident, Spool.Row>,    // sent on the socket, not yet answered
    ws: seq<Spool.Row>,                    // on the socket, not yet read by the server
    down: seq<Recording.Reply>,            // answers not yet read by the transport
    up: seq<ToSupervisor>)                 // messages not yet read by the supervisor

  const NEW_CONN := Conn(true, [], map[], [], [], [])

  // `hung` says that the drain loop goes round for ever. `log` is history: every frame
  // a session emitted, in order. `sent` is history too: the number up to which a stream
  // was acknowledged at attach time or taken for the attached transport since.
  datatype Sys = Sys(
    sup: Sender.Sup,
    hung: bool,
    conns: seq<Conn>,                      // the last one is the attached one, if any
    world: Recording.World,
    log: seq<Frame>,
    sent: map<Stream, nat>)

  const INIT := Sys(Sender.Start(Spool.EMPTY), false, [], Recording.World([], map[]), [], map[])

  datatype Action =
    | Emit(frame: Frame, bytes: nat)
    | EmitControl(agentId: string)
    | AttachNew
    | Detach
    | CrashSupervisor
    | Drain
    | Wake
    | ControlAck(id: nat)
    | Forward(c: nat)
    | ServerRead(c: nat, redact: bool, now: int)
    | ServerCommit(c: nat, current: bool)
    | ServerDrop(c: nat)
    | TransportRead(c: nat)
    | SupervisorRead(c: nat)
    | Lose(c: nat, keepIpc: nat, keepWs: nat, keepDown: nat, keepUp: nat)

  // Frames of a session carry their own identity and no routing override.
  predicate FromSession(f: Frame) {
    f.spoolSid.None? && f.spoolPid.None? && f.sid != "" && f.pid != ""
  }

  // The server refuses larger payloads.
  predicate Admissible(f: Frame) {
    Utf8Size(f.data) <= MAX_DATA_BYTES
  }

  function Refused(r: Spool.Row): Recording.Reply {
    Recording.Response(Recording.Invalid(Recording.OtherReason("data too large")), r.frame.WireStream(), r.num)
  }

  function Take<T>(s: seq<T>, n: nat): seq<T> {
    if n <= |s| then s[..n] else s
  }

  function IncomingOf(r: Spool.Row, redact: bool, now: int): Recording.Incoming {
    Recording.Incoming(r.frame.WireStream(), r.num, r.frame.kind, r.frame.data, redact, now)
  }

  // The outstanding rows of a stream from `expected` on, in number order.
  function ResendFrom(outstanding: map<Ident, Spool.Row>, k: Stream, expected: nat, last: nat): seq<Spool.Row>
    decreases last + 1 - expected
  {
    if expected > last then []
    else (if Ident(k, expected) in outstanding then [outstanding[Ident(k, expected)]] else [])
         + ResendFrom(outstanding, k, expected + 1, last)
  }

  // The transport gives the connection up, with all it has not read.
  function Raises(c: Conn): Conn {
    c.(open := false, ipc := [], down := [])
  }

  // What the transport does with one server answer.
  function OnReply(c: Conn, reply: Recording.Reply, last: nat): Conn {
    match reply
    case AckReply(k, num) =>
      var id := Ident(k, num);
      if id in c.outstanding
      then c.(outstanding := c.outstanding - {id}, up := c.up + [DeliveryAck(c.outstanding[id].ord)])
      else c
    case ResendReply(k, expected) =>
      if Ident(k, expected) in c.outstanding
      then c.(ws := c.ws + ResendFrom(c.outstanding, k, expected, last))
      else Raises(c)
    case FenceReply(k, _) =>
      if exists id :: id in c.outstanding && id.stream == k
      then c.(outstanding := map id | id in c.outstanding && id.stream != k :: c.outstanding[id],
              up := c.up + [FenceMessage(k)])
      else c
    case ErrorReply(_, _) => Raises(c)
  }

  function OnMessage(sup: Sender.Sup, m: ToSupervisor): Sender.Sup {
    match m
    case DeliveryAck(ord) => Sender.ApplyAck(sup, Sender.RowId(ord))
    case FenceMessage(k) => Sender.FenceStream(sup, k)
  }

  // A row the loop took counts as sent, whatever becomes of it.
  function Marks(s: Sys, next: Sender.Sup, r: Spool.Row): Sys {
    s.(sup := next, sent := s.sent[r.stream := r.num])
  }

  // A row is handed to the attached connection, if that still carries frames.
  function HandOver(s: Sys, next: Sender.Sup, r: Spool.Row): Sys {
    Marks(s, next, r).(
      conns := if s.conns != [] && s.conns[|s.conns| - 1].open
               then var last := s.conns[|s.conns| - 1];
                    s.conns[|s.conns| - 1 := last.(ipc := last.ipc + [r])]
               else s.conns)
  }

  function DrainStep(s: Sys): Sys {
    if !Sender.Running(s.sup) then s
    else
      match Sender.Resume(s.sup)
      case Sends(t, RowDelivery(r)) => HandOver(s, t, r)
      case Raises(t, r) => Marks(s, t, r)
      case Spins(t) => s.(sup := t, hung := true)
      case step => s.(sup := step.next)
  }

  function Abandon(c: Conn): Conn {
    c.(open := false, ipc := [], ws := [])
  }

  // Records before sending.
  function Forwarded(c: Conn): Conn
    requires c.ipc != []
  {
    var r := c.ipc[0];
    c.(ipc := c.ipc[1..], ws := c.ws + [r], outstanding := c.outstanding[Ident(r.stream, r.num) := r])
  }

  // Any suffix of any queue is lost. Nothing passes from a queue that was cut short
  // into the next one, so a cut socket takes the unread deliveries along.
  function Lost(c: Conn, keepIpc: nat, keepWs: nat, keepDown: nat, keepUp: nat): Conn {
    c.(open := false,
       ipc := if keepWs < |c.ws| then [] else Take(c.ipc, keepIpc),
       ws := Take(c.ws, keepWs),
       down := Take(c.down, keepDown),
       up := Take(c.up, keepUp))
  }

  // What only the supervisor's process does.
  predicate OfSupervisor(a: Action) {
    match a
    case Emit(_, _) => true
    case EmitControl(_) => true
    case AttachNew => true
    case Detach => true
    case Drain => true
    case Wake => true
    case ControlAck(_) => true
    case SupervisorRead(_) => true
    case _ => false
  }

  // A supervisor that hangs does nothing any more until it is restarted.
  function Step(s: Sys, a: Action): Sys {
    if s.hung && OfSupervisor(a) then s else Act(s, a)
  }

  function Act(s: Sys, a: Action): Sys {
    match a
    case Emit(f, bytes) =>
      if FromSession(f) then s.(sup := Sender.EmitOutput(s.sup, f, bytes), log := s.log + [f]) else s
    case EmitControl(agentId) => s.(sup := Sender.EmitControl(s.sup, agentId))
    case AttachNew =>
      s.(sup := Sender.Attach(s.sup), conns := s.conns + [NEW_CONN], sent := s.sup.spool.acked)
    case Detach => s.(sup := Sender.Detach(s.sup))
    case CrashSupervisor => s.(sup := Sender.Start(s.sup.spool), hung := false, sent := s.sup.spool.acked)
    case Drain => DrainStep(s)
    case Wake => s.(sup := Sender.Wake(s.sup))
    case ControlAck(id) => s.(sup := Sender.ApplyAck(s.sup, Sender.ControlId(id)))
    case Forward(i) =>
      if i < |s.conns| && s.conns[i].ipc != []
      then s.(conns := s.conns[i := Forwarded(s.conns[i])])
      else s
    case ServerRead(i, redact, now) =>
      if i < |s.conns| && s.conns[i].ws != [] && i !in s.world.held then
        var c := s.conns[i];
        if !Admissible(c.ws[0].frame) then
          s.(conns := s.conns[i := c.(ws := c.ws[1..], down := c.down + [Refused(c.ws[0])])])
        else
          var (w, replies) := Recording.Act(s.world, Recording.ClassifyAction(i, IncomingOf(c.ws[0], redact, now)));
          s.(world := w, conns := s.conns[i := c.(ws := c.ws[1..], down := c.down + replies)])
      else s
    case ServerCommit(i, current) =>
      // A connection that was superseded while its commit ran is closed unanswered.
      if i < |s.conns| && i in s.world.held then
        var c := s.conns[i];
        var (w, replies) := Recording.Act(s.world, Recording.CommitAction(i, false));
        s.(world := w, conns := s.conns[i := if current then c.(down := c.down + replies) else Abandon(c)])
      else s
    case ServerDrop(i) =>
      if i < |s.conns| then
        s.(world := s.world.(held := s.world.held - {i}), conns := s.conns[i := Abandon(s.conns[i])])
      else s
    case TransportRead(i) =>
      if i < |s.conns| && s.conns[i].down != [] then
        var c := s.conns[i];
        s.(conns := s.conns[i := OnReply(c.(down := c.down[1..]), c.down[0], s.sup.spool.lastOrd)])
      else s
    case SupervisorRead(i) =>
      if i < |s.conns| && s.conns[i].up != [] then
        var c := s.conns[i];
        s.(sup := OnMessage(s.sup, c.up[0]), conns := s.conns[i := c.(up := c.up[1..])])
      else s
    case Lose(i, keepIpc, keepWs, keepDown, keepUp) =>
      if i < |s.conns|
      then s.(conns := s.conns[i := Lost(s.conns[i], keepIpc, keepWs, keepDown, keepUp)])
      else s
  }

  function Run(s: Sys, actions: seq<Action>): Sys
    decreases |actions|
  {
    if actions == [] then s else Run(Step(s, actions[0]), actions[1..])
  }

  // ---- What was emitted ---------------------------------------------------------

  // The frames emitted on one stream, in order.
  function Emitted(log: seq<Frame>, k: Stream): seq<Frame> {
    if log == [] then []
    else Emitted(log[..|log| - 1], k)
         + (if log[|log| - 1].WireStream() == k then [log[|log| - 1]] else [])
  }

  // The last frame of the log, with the number and the `ord` it got, fits the channel.
  predicate LastFits(log: seq<Frame>)
    requires log != []
  {
    var f := log[|log| - 1];
    DeliverySize(f, |Emitted(log, f.WireStream())|, |log|) <= MAX_FRAME
  }

  // The n-th frame of the log can be sent.
  predicate CanBeSent(log: seq<Frame>, n: nat)
    requires n < |log|
  {
    LastFits(log[..n + 1])
  }

  ghost predicate AllCanBeSent(log: seq<Frame>) {
    forall n :: 0 <= n < |log| ==> CanBeSent(log, n)
  }

  // How many frames were emitted before the first one that cannot be sent.
  function Clear(log: seq<Frame>): (n: nat)
    ensures n <= |log|
  {
    if log == [] then 0
    else
      var n := Clear(log[..|log| - 1]);
      if n == |log| - 1 && LastFits(log) then |log| else n
  }

  // Row number n of stream k carries the n-th frame emitted on k.
  ghost predicate Genuine(log: seq<Frame>, r: Spool.Row) {
    && r.frame.WireStream() == r.stream
    && 1 <= r.num <= |Emitted(log, r.stream)|
    && r.frame == Emitted(log, r.stream)[r.num - 1]
  }

  // The row with `ord` n carries the n-th frame of all.
  ghost predicate Placed(log: seq<Frame>, r: Spool.Row) {
    && 1 <= r.ord <= |log|
    && r.frame == log[r.ord - 1]
    && r.num == |Emitted(log[..r.ord], r.stream)|
  }

  // A stored row was emitted, and before the first frame that cannot be sent.
  ghost predicate GenuineStored(log: seq<Frame>, r: Recording.Stored) {
    && 1 <= r.num <= |Emitted(log, r.stream)|
    && r.num <= |Emitted(log[..Clear(log)], r.stream)|
    && var f := Emitted(log, r.stream)[r.num - 1];
       && r.kind == f.kind
       && r.hash == Recording.PayloadHash(f.kind, f.data)
       && (r.redactedAt.None? ==> r.data == f.data)
  }

  // A delivery id names one row: while that row is pending, it is the very same one.
  ghost predicate NamesRow(spool: Spool.State, r: Spool.Row) {
    r.ord <= spool.lastOrd && forall p :: p in spool.rows && p.ord == r.ord ==> p == r
  }

  // ---- Invariant -------------------------------------------------------------------

  // The supervisor and its spool hold exactly what is emitted and not acknowledged.
  ghost predicate SpoolInv(s: Sys) {
    && Sender.SupInv(s.sup)
    && Sender.NoGhosts(s.sup)
    && s.sup.spool.lastOrd == |s.log|
    && (forall r :: r in s.sup.spool.rows ==> Genuine(s.log, r) && Placed(s.log, r))
    && (forall k :: Lookup(s.sup.spool.acked, k) + |Spool.Lane(s.sup.spool.rows, k)| == |Emitted(s.log, k)|)
  }

  // `sent` marks in each stream what `hiRow` marks in the whole spool. A loop that is
  // at work has come to no frame that cannot be sent.
  ghost predicate SentInv(s: Sys) {
    && (forall r :: r in s.sup.spool.rows ==> (r.num <= Lookup(s.sent, r.stream) <==> r.ord <= s.sup.hiRow))
    && (forall k :: Lookup(s.sup.spool.acked, k) <= Lookup(s.sent, k) <= |Emitted(s.log, k)|)
    && (s.sup.drain.Detached? || s.sup.hiRow <= Clear(s.log))
  }

  ghost predicate ServerInv(s: Sys) {
    && Recording.WorldInv(s.world)
    && (forall r :: r in s.world.rows ==> GenuineStored(s.log, r))
    && (forall c :: c in s.world.held ==> GenuineStored(s.log, s.world.held[c].row))
    && (forall k :: Lookup(s.sup.spool.acked, k) <= Recording.Frontier(s.world.rows, k))
  }

  ghost predicate RowOk(s: Sys, r: Spool.Row) {
    Genuine(s.log, r) && Placed(s.log, r) && NamesRow(s.sup.spool, r) && r.ord <= Clear(s.log)
  }

  ghost predicate ReplyOk(s: Sys, reply: Recording.Reply) {
    && reply.AckReply?
    && 1 <= reply.num <= Recording.Frontier(s.world.rows, reply.stream)
  }

  ghost predicate MessageOk(s: Sys, m: ToSupervisor) {
    && m.DeliveryAck?
    && m.ord <= s.sup.spool.lastOrd
    && forall r :: r in s.sup.spool.rows && r.ord == m.ord ==>
         r.num <= Recording.Frontier(s.world.rows, r.stream)
  }

  ghost predicate ConnOk(s: Sys, c: Conn) {
    && (forall r :: r in c.ipc ==> RowOk(s, r))
    && (forall r :: r in c.ws ==> RowOk(s, r))
    && (forall id :: id in c.outstanding ==>
          RowOk(s, c.outstanding[id]) && id == Ident(c.outstanding[id].stream, c.outstanding[id].num))
    && (forall reply :: reply in c.down ==> ReplyOk(s, reply))
    && (forall m :: m in c.up ==> MessageOk(s, m))
  }

  ghost predicate ConnsOk(s: Sys, conns: seq<Conn>) {
    forall i :: 0 <= i < |conns| ==> ConnOk(s, conns[i])
  }

  // The numbers of stream k a connection has yet to put before the server.
  function Nums(rows: seq<Spool.Row>, k: Stream): seq<nat> {
    if rows == [] then []
    else (if rows[0].stream == k then [rows[0].num] else []) + Nums(rows[1..], k)
  }

  function HeldNums(world: Recording.World, i: nat, k: Stream): seq<nat> {
    if i in world.held && world.held[i].row.stream == k then [world.held[i].row.num] else []
  }

  function Flow(s: Sys, i: nat, k: Stream): seq<nat>
    requires i < |s.conns|
  {
    HeldNums(s.world, i, k) + Nums(s.conns[i].ws, k) + Nums(s.conns[i].ipc, k)
  }

  ghost predicate Chain(nums: seq<nat>, frontier: nat) {
    && (nums != [] ==> nums[0] <= frontier + 1)
    && forall j :: 0 < j < |nums| ==> nums[j] == nums[j - 1] + 1
  }

  // The attached connection continues where its flow ends.
  ghost predicate Continues(nums: seq<nat>, sent: nat, frontier: nat) {
    if nums == [] then sent <= frontier else nums[|nums| - 1] == sent
  }

  // Every connection feeds the server without a gap.
  ghost predicate FlowInv(s: Sys) {
    && (forall i, k :: 0 <= i < |s.conns| ==> Chain(Flow(s, i, k), Recording.Frontier(s.world.rows, k)))
    && (Sender.Running(s.sup) || s.sup.drain.Waiting? ==> s.conns != [])
    && (s.conns != [] && s.conns[|s.conns| - 1].open && !s.sup.drain.Detached? ==>
          forall k :: Continues(Flow(s, |s.conns| - 1, k), Lookup(s.sent, k), Recording.Frontier(s.world.rows, k)))
  }

  ghost predicate SysInv(s: Sys) {
    && SpoolInv(s)
    && SentInv(s)
    && ServerInv(s)
    && ConnsOk(s, s.conns)
    && (forall i :: i in s.world.held ==> i < |s.conns|)
    && FlowInv(s)
  }
}
