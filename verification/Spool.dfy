// The connector's durable outbox: one specification, two implementations.
//
// `State` is the content of the spool tables. The functions below say what each
// operation does to it; InMemorySpool and DiskSpool are proved against them, and
// the lemmas show that the tables refine one abstract queue per stream.
module Spool {
  import opened Common

  // One outbox row. `num` is the per-stream sequence number, `ord` the global
  // insertion order, `bytes` the size of the serialized payload.
  datatype Row = Row(ord: nat, stream: Stream, num: nat, frame: Frame, bytes: nat)

  datatype State = State(rows: seq<Row>, acked: map<Stream, nat>, lastOrd: nat)

  const EMPTY := State([], map[], 0)

  // ---- Queries ------------------------------------------------------------

  // The rows of one stream, in insertion order.
  function Lane(rows: seq<Row>, k: Stream): seq<Row> {
    if rows == [] then []
    else (if rows[0].stream == k then [rows[0]] else []) + Lane(rows[1..], k)
  }

  function TotalBytes(rows: seq<Row>): nat {
    if rows == [] then 0 else rows[0].bytes + TotalBytes(rows[1..])
  }

  function Without(rows: seq<Row>, k: Stream): seq<Row> {
    if rows == [] then []
    else (if rows[0].stream == k then [] else [rows[0]]) + Without(rows[1..], k)
  }

  function WithoutFirst(rows: seq<Row>, k: Stream): seq<Row> {
    if rows == [] then []
    else if rows[0].stream == k then rows[1..]
    else [rows[0]] + WithoutFirst(rows[1..], k)
  }

  // The row with a given global order number, if it is still pending.
  function Find(rows: seq<Row>, ord: nat): Option<Row> {
    if rows == [] then None
    else if rows[0].ord == ord then Some(rows[0])
    else Find(rows[1..], ord)
  }

  // ---- Operations ---------------------------------------------------------

  function Enqueue(s: State, f: Frame, bytes: nat): State {
    var k := f.Identity();
    var num := Lookup(s.acked, k) + |Lane(s.rows, k)| + 1;
    s.(rows := s.rows + [Row(s.lastOrd + 1, k, num, f.Emitted(), bytes)],
       lastOrd := s.lastOrd + 1)
  }

  predicate Acks(s: State, k: Stream, num: int) {
    Lane(s.rows, k) != [] && num == Lookup(s.acked, k) + 1
  }

  function Ack(s: State, k: Stream, num: int): State {
    if Acks(s, k, num)
    then s.(rows := WithoutFirst(s.rows, k), acked := s.acked[k := num])
    else s
  }

  predicate AcksOrd(s: State, ord: nat) {
    var row := Find(s.rows, ord);
    row.Some? && Acks(s, row.value.stream, row.value.num)
  }

  function AckOrd(s: State, ord: nat): State {
    var row := Find(s.rows, ord);
    if row.Some? then Ack(s, row.value.stream, row.value.num) else s
  }

  function Fence(s: State, k: Stream): State {
    s.(rows := Without(s.rows, k), acked := s.acked - {k})
  }

  // ---- Invariant ----------------------------------------------------------

  ghost predicate Ordered(rows: seq<Row>) {
    forall i, j :: 0 <= i < j < |rows| ==> rows[i].ord < rows[j].ord
  }

  // Pending numbers of a stream start right after its last acknowledged number.
  ghost predicate Contiguous(lane: seq<Row>, acked: nat) {
    forall i :: 0 <= i < |lane| ==> lane[i].num == acked + 1 + i
  }

  ghost predicate Inv(s: State) {
    && Ordered(s.rows)
    && (forall i :: 0 <= i < |s.rows| ==> 0 < s.rows[i].ord <= s.lastOrd)
    && (forall k :: Contiguous(Lane(s.rows, k), Lookup(s.acked, k)))
  }

  // ---- The abstract queue of one stream ------------------------------------

  datatype Entry = Entry(ord: nat, frame: Frame)

  // What a stream is, once sequence numbers are forgotten: how many frames have
  // been acknowledged and which ones wait.
  datatype Track = Track(acked: nat, queue: seq<Entry>)

  datatype Op =
    | EnqueueOp(frame: Frame, bytes: nat)
    | AckOp(stream: Stream, num: int)
    | AckOrdOp(ord: nat)
    | FenceOp(stream: Stream)

  function Apply(s: State, op: Op): State {
    match op
    case EnqueueOp(f, bytes) => Enqueue(s, f, bytes)
    case AckOp(k, num) => Ack(s, k, num)
    case AckOrdOp(ord) => AckOrd(s, ord)
    case FenceOp(k) => Fence(s, k)
  }

  function Run(s: State, ops: seq<Op>): State
    decreases |ops|
  {
    if ops == [] then s else Run(Apply(s, ops[0]), ops[1..])
  }

  // The abstract meaning of an operation for stream `k`: no number is searched
  // for or stored; an acknowledgement either addresses the head or does nothing.
  function TrackStep(t: Track, k: Stream, lastOrd: nat, op: Op): Track {
    match op
    case EnqueueOp(f, _) =>
      if f.Identity() == k then t.(queue := t.queue + [Entry(lastOrd + 1, f.Emitted())]) else t
    case AckOp(target, num) =>
      if target == k && t.queue != [] && num == t.acked + 1
      then Track(t.acked + 1, t.queue[1..]) else t
    case AckOrdOp(ord) =>
      if t.queue != [] && t.queue[0].ord == ord then Track(t.acked + 1, t.queue[1..]) else t
    case FenceOp(target) =>
      if target == k then Track(0, []) else t
  }

  function TrackRun(t: Track, k: Stream, lastOrd: nat, ops: seq<Op>): Track
    decreases |ops|
  {
    if ops == [] then t
    else TrackRun(TrackStep(t, k, lastOrd, ops[0]), k,
                  if ops[0].EnqueueOp? then lastOrd + 1 else lastOrd, ops[1..])
  }

  function Entries(lane: seq<Row>): seq<Entry> {
    seq(|lane|, i requires 0 <= i < |lane| => Entry(lane[i].ord, lane[i].frame))
  }

  function TrackOf(s: State, k: Stream): Track {
    Track(Lookup(s.acked, k), Entries(Lane(s.rows, k)))
  }

  // ---- Lemmas about the tables ---------------------------------------------

  lemma {:induction false} LaneConcat(a: seq<Row>, b: seq<Row>, k: Stream)
    ensures Lane(a + b, k) == Lane(a, k) + Lane(b, k)
  {
    if a == [] {
      assert a + b == b;
    } else {
      assert (a + b)[1..] == a[1..] + b;
      LaneConcat(a[1..], b, k);
    }
  }

  lemma {:induction false} LaneMembers(rows: seq<Row>, k: Stream)
    ensures forall r :: r in Lane(rows, k) <==> r in rows && r.stream == k
  {
    if rows != [] {
      LaneMembers(rows[1..], k);
      assert forall r :: r in rows <==> r == rows[0] || r in rows[1..];
    }
  }

  lemma {:induction false} LaneOrdered(rows: seq<Row>, k: Stream)
    requires Ordered(rows)
    ensures Ordered(Lane(rows, k))
  {
    if rows != [] {
      LaneOrdered(rows[1..], k);
      LaneMembers(rows[1..], k);
      var rest := Lane(rows[1..], k);
      forall i | 0 <= i < |rest|
        ensures rows[0].ord < rest[i].ord
      {
        assert rest[i] in rest;
      }
    }
  }

  lemma {:induction false} WithoutFirstLanes(rows: seq<Row>, k: Stream, other: Stream)
    ensures Lane(WithoutFirst(rows, k), other)
         == if other == k && Lane(rows, k) != [] then Lane(rows, k)[1..] else Lane(rows, other)
  {
    if rows != [] {
      if rows[0].stream != k {
        WithoutFirstLanes(rows[1..], k, other);
        assert ([rows[0]] + WithoutFirst(rows[1..], k))[1..] == WithoutFirst(rows[1..], k);
      }
    }
  }

  // Exactly one row leaves, and it is the head of its lane.
  lemma {:induction false} WithoutFirstMembers(rows: seq<Row>, k: Stream)
    requires Ordered(rows)
    ensures Ordered(WithoutFirst(rows, k))
    ensures Lane(rows, k) == [] ==> WithoutFirst(rows, k) == rows
    ensures Lane(rows, k) != [] ==>
              forall r :: r in WithoutFirst(rows, k) <==> r in rows && r != Lane(rows, k)[0]
  {
    if rows != [] {
      assert forall r :: r in rows <==> r == rows[0] || r in rows[1..];
      if rows[0].stream == k {
        assert Lane(rows, k)[0] == rows[0];
      } else {
        WithoutFirstMembers(rows[1..], k);
        LaneMembers(rows[1..], k);
        var tail := WithoutFirst(rows[1..], k);
        forall i | 0 <= i < |tail|
          ensures rows[0].ord < tail[i].ord
        {
          assert tail[i] in tail;
        }
        if Lane(rows, k) != [] {
          assert Lane(rows, k)[0] in Lane(rows[1..], k);
        }
      }
    }
  }

  lemma {:induction false} WithoutFirstBytes(rows: seq<Row>, k: Stream)
    requires Lane(rows, k) != []
    ensures |WithoutFirst(rows, k)| == |rows| - 1
    ensures TotalBytes(WithoutFirst(rows, k)) == TotalBytes(rows) - Lane(rows, k)[0].bytes
  {
    if rows[0].stream != k {
      WithoutFirstBytes(rows[1..], k);
      assert ([rows[0]] + WithoutFirst(rows[1..], k))[1..] == WithoutFirst(rows[1..], k);
    }
  }

  lemma {:induction false} WithoutLanes(rows: seq<Row>, k: Stream, other: Stream)
    ensures Lane(Without(rows, k), other) == if other == k then [] else Lane(rows, other)
  {
    if rows != [] {
      WithoutLanes(rows[1..], k, other);
      LaneConcat(if rows[0].stream == k then [] else [rows[0]], Without(rows[1..], k), other);
    }
  }

  lemma {:induction false} WithoutMembers(rows: seq<Row>, k: Stream)
    requires Ordered(rows)
    ensures Ordered(Without(rows, k))
    ensures forall r :: r in Without(rows, k) <==> r in rows && r.stream != k
  {
    if rows != [] {
      WithoutMembers(rows[1..], k);
      assert forall r :: r in rows <==> r == rows[0] || r in rows[1..];
      var tail := Without(rows[1..], k);
      forall i | 0 <= i < |tail|
        ensures rows[0].ord < tail[i].ord
      {
        assert tail[i] in tail;
      }
    }
  }

  // A fence splits the table into what it removes and what it keeps.
  lemma {:induction false} WithoutBytes(rows: seq<Row>, k: Stream)
    ensures |rows| == |Without(rows, k)| + |Lane(rows, k)|
    ensures TotalBytes(rows) == TotalBytes(Without(rows, k)) + TotalBytes(Lane(rows, k))
  {
    if rows != [] {
      WithoutBytes(rows[1..], k);
      BytesConcat(if rows[0].stream == k then [] else [rows[0]], Without(rows[1..], k));
      BytesConcat(if rows[0].stream == k then [rows[0]] else [], Lane(rows[1..], k));
    }
  }

  lemma {:induction false} BytesConcat(a: seq<Row>, b: seq<Row>)
    ensures TotalBytes(a + b) == TotalBytes(a) + TotalBytes(b)
  {
    if a == [] {
      assert a + b == b;
    } else {
      assert (a + b)[1..] == a[1..] + b;
      BytesConcat(a[1..], b);
    }
  }

  // Looking a row up by its order number finds exactly the pending row with it.
  lemma {:induction false} FindMeans(rows: seq<Row>, ord: nat)
    requires Ordered(rows)
    ensures Find(rows, ord).None? ==> forall r :: r in rows ==> r.ord != ord
    ensures Find(rows, ord).Some? ==>
              && Find(rows, ord).value in rows
              && Find(rows, ord).value.ord == ord
              && forall r :: r in rows && r.ord == ord ==> r == Find(rows, ord).value
  {
    if rows != [] {
      assert forall r :: r in rows <==> r == rows[0] || r in rows[1..];
      FindMeans(rows[1..], ord);
      if rows[0].ord == ord {
        forall r | r in rows && r.ord == ord
          ensures r == rows[0]
        {
          var i :| 0 <= i < |rows| && rows[i] == r;
        }
      }
    }
  }

  // ---- Every operation keeps the invariant and refines the abstract queue ----

  lemma EnqueueRefines(s: State, f: Frame, bytes: nat, k: Stream)
    requires Inv(s)
    ensures Inv(Enqueue(s, f, bytes))
    ensures TrackOf(Enqueue(s, f, bytes), k) == TrackStep(TrackOf(s, k), k, s.lastOrd, EnqueueOp(f, bytes))
  {
    EnqueueLanes(s, f, bytes);
    EnqueueTrack(s, f, bytes, k);
  }

  lemma EnqueueLanes(s: State, f: Frame, bytes: nat)
    ensures var t := Enqueue(s, f, bytes); var row := t.rows[|s.rows|];
            forall k :: Lane(t.rows, k) == Lane(s.rows, k) + (if k == row.stream then [row] else [])
  {
    var row := Enqueue(s, f, bytes).rows[|s.rows|];
    forall k
      ensures Lane(s.rows + [row], k) == Lane(s.rows, k) + (if k == row.stream then [row] else [])
    {
      LaneConcat(s.rows, [row], k);
    }
  }

  lemma EnqueueTrack(s: State, f: Frame, bytes: nat, k: Stream)
    ensures TrackOf(Enqueue(s, f, bytes), k) == TrackStep(TrackOf(s, k), k, s.lastOrd, EnqueueOp(f, bytes))
  {
    var row := Enqueue(s, f, bytes).rows[|s.rows|];
    LaneConcat(s.rows, [row], k);
  }

  lemma AckTrack(s: State, target: Stream, num: int, k: Stream)
    ensures TrackOf(Ack(s, target, num), k) == TrackStep(TrackOf(s, k), k, s.lastOrd, AckOp(target, num))
  {
    var lane := Lane(s.rows, k);
    if Acks(s, target, num) {
      var rest := Lane(Ack(s, target, num).rows, k);
      assert rest == if k == target then lane[1..] else lane by {
        WithoutFirstLanes(s.rows, target, k);
      }
      if k == target {
        assert Entries(lane[1..]) == Entries(lane)[1..];
      }
    }
  }

  lemma AckKeepsInv(s: State, target: Stream, num: int)
    requires Inv(s)
    ensures Inv(Ack(s, target, num))
  {
    var t := Ack(s, target, num);
    if Acks(s, target, num) {
      WithoutFirstMembers(s.rows, target);
      forall i | 0 <= i < |t.rows|
        ensures 0 < t.rows[i].ord <= t.lastOrd
      {
        assert t.rows[i] in t.rows;
      }
      forall other
        ensures Contiguous(Lane(t.rows, other), Lookup(t.acked, other))
      {
        WithoutFirstLanes(s.rows, target, other);
        assert Contiguous(Lane(s.rows, other), Lookup(s.acked, other));
      }
    }
  }

  // An acknowledgement by order number acts only on the lane whose head has it.
  lemma AckOrdRefines(s: State, ord: nat, k: Stream)
    requires Inv(s)
    ensures Inv(AckOrd(s, ord))
    ensures TrackOf(AckOrd(s, ord), k) == TrackStep(TrackOf(s, k), k, s.lastOrd, AckOrdOp(ord))
  {
    FindMeans(s.rows, ord);
    var found := Find(s.rows, ord);
    var lane := Lane(s.rows, k);
    LaneMembers(s.rows, k);
    if lane != [] {
      assert lane[0] in lane;
    }
    if found.Some? {
      var row := found.value;
      AckTrack(s, row.stream, row.num, k);
      AckKeepsInv(s, row.stream, row.num);
      if row.stream == k {
        assert Contiguous(lane, Lookup(s.acked, k));
        var i :| 0 <= i < |lane| && lane[i] == row;
        if i > 0 {
          LaneOrdered(s.rows, k);
        }
      }
    }
  }

  lemma FenceTrack(s: State, target: Stream, k: Stream)
    ensures TrackOf(Fence(s, target), k) == TrackStep(TrackOf(s, k), k, s.lastOrd, FenceOp(target))
  {
    WithoutLanes(s.rows, target, k);
  }

  lemma FenceKeepsInv(s: State, target: Stream)
    requires Inv(s)
    ensures Inv(Fence(s, target))
  {
    var t := Fence(s, target);
    WithoutMembers(s.rows, target);
    forall i | 0 <= i < |t.rows|
      ensures 0 < t.rows[i].ord <= t.lastOrd
    {
      assert t.rows[i] in t.rows;
    }
    forall other
      ensures Contiguous(Lane(t.rows, other), Lookup(t.acked, other))
    {
      WithoutLanes(s.rows, target, other);
      assert Contiguous(Lane(s.rows, other), Lookup(s.acked, other));
    }
  }

  lemma StepRefines(s: State, op: Op, k: Stream)
    requires Inv(s)
    ensures Inv(Apply(s, op))
    ensures TrackOf(Apply(s, op), k) == TrackStep(TrackOf(s, k), k, s.lastOrd, op)
    ensures Apply(s, op).lastOrd == if op.EnqueueOp? then s.lastOrd + 1 else s.lastOrd
  {
    match op
    case EnqueueOp(f, bytes) => EnqueueRefines(s, f, bytes, k);
    case AckOp(target, num) =>
      AckTrack(s, target, num, k);
      AckKeepsInv(s, target, num);
    case AckOrdOp(ord) => AckOrdRefines(s, ord, k);
    case FenceOp(target) =>
      FenceTrack(s, target, k);
      FenceKeepsInv(s, target);
  }

  // Under any mix of enqueues, acknowledgements of any kind and fences, every
  // stream behaves as its own abstract queue, untouched by the other streams.
  lemma {:induction false} RunRefines(s: State, ops: seq<Op>, k: Stream)
    requires Inv(s)
    ensures Inv(Run(s, ops))
    ensures TrackOf(Run(s, ops), k) == TrackRun(TrackOf(s, k), k, s.lastOrd, ops)
    decreases |ops|
  {
    if ops != [] {
      StepRefines(s, ops[0], k);
      RunRefines(Apply(s, ops[0]), ops[1..], k);
    }
  }

  // ---- The numbers handed out --------------------------------------------------

  predicate Enqueues(op: Op, k: Stream) {
    op.EnqueueOp? && op.frame.Identity() == k
  }

  predicate Fences(op: Op, k: Stream) {
    op.FenceOp? && op.stream == k
  }

  // How often a stream was enqueued since its last fence.
  function Since(ops: seq<Op>, k: Stream): nat {
    if ops == [] then 0
    else
      var last := ops[|ops| - 1];
      if Fences(last, k) then 0
      else Since(ops[..|ops| - 1], k) + (if Enqueues(last, k) then 1 else 0)
  }

  lemma {:induction false} RunLast(s: State, ops: seq<Op>, op: Op)
    ensures Run(s, ops + [op]) == Apply(Run(s, ops), op)
    decreases |ops|
  {
    if ops == [] {
      assert [] + [op] == [op] && [op][1..] == [];
      assert Run(s, [op]) == Run(Apply(s, op), [op][1..]);
    } else {
      assert (ops + [op])[1..] == ops[1..] + [op];
      RunLast(Apply(s, ops[0]), ops[1..], op);
    }
  }

  // Every enqueue since the last fence is either acknowledged or waits.
  lemma {:induction false} Counted(ops: seq<Op>, k: Stream)
    ensures var s := Run(EMPTY, ops); Inv(s) && Lookup(s.acked, k) + |Lane(s.rows, k)| == Since(ops, k)
    decreases |ops|
  {
    if ops != [] {
      var before, last := ops[..|ops| - 1], ops[|ops| - 1];
      var s := Run(EMPTY, before);
      Counted(before, k);
      assert ops == before + [last];
      RunLast(EMPTY, before, last);
      StepRefines(s, last, k);
      CountedStep(TrackOf(s, k), k, s.lastOrd, last);
      assert TrackOf(Apply(s, last), k) == TrackStep(TrackOf(s, k), k, s.lastOrd, last);
    }
  }

  lemma CountedStep(t: Track, k: Stream, lastOrd: nat, op: Op)
    ensures var u := TrackStep(t, k, lastOrd, op);
            && (Fences(op, k) ==> u.acked + |u.queue| == 0)
            && (!Fences(op, k) ==>
                  u.acked + |u.queue| == t.acked + |t.queue| + (if Enqueues(op, k) then 1 else 0))
  {
  }

  // The i-th enqueue of a stream since its last fence gets number i, whatever
  // acknowledgements and other streams come between.
  lemma NextNumber(ops: seq<Op>, f: Frame, bytes: nat)
    ensures var s := Run(EMPTY, ops);
            var t := Run(EMPTY, ops + [EnqueueOp(f, bytes)]);
            && |t.rows| == |s.rows| + 1 && t.rows[..|s.rows|] == s.rows
            && t.rows[|s.rows|].stream == f.Identity() && t.rows[|s.rows|].frame == f.Emitted()
            && t.rows[|s.rows|].num == Since(ops, f.Identity()) + 1
  {
    Counted(ops, f.Identity());
    RunLast(EMPTY, ops, EnqueueOp(f, bytes));
  }

  // The number the n-th operation of a run hands out.
  function Number(ops: seq<Op>, n: nat): nat
    requires n < |ops| && ops[n].EnqueueOp?
  {
    var s := Run(EMPTY, ops[..n]);
    var rows := Enqueue(s, ops[n].frame, ops[n].bytes).rows;
    rows[|rows| - 1].num
  }

  lemma NumberIsCount(ops: seq<Op>, n: nat, k: Stream)
    requires n < |ops| && Enqueues(ops[n], k)
    ensures Number(ops, n) == Since(ops[..n], k) + 1
  {
    Counted(ops[..n], k);
  }

  // Without a fence the count only grows, and with every enqueue.
  lemma {:induction false} SinceGrows(ops: seq<Op>, m: nat, n: nat, k: Stream)
    requires m <= n <= |ops|
    requires forall j :: m <= j < n ==> !Fences(ops[j], k)
    ensures Since(ops[..m], k) <= Since(ops[..n], k)
    ensures m < n && Enqueues(ops[m], k) ==> Since(ops[..m], k) < Since(ops[..n], k)
    decreases n - m
  {
    if m < n {
      SinceGrows(ops, m, n - 1, k);
      assert ops[..n][..n - 1] == ops[..n - 1];
    }
  }

  // The first enqueue after the start or after a fence is number 1.
  lemma {:induction false} FirstIsOne(ops: seq<Op>, from: nat, n: nat, k: Stream) returns (first: nat)
    requires from <= n < |ops| && Enqueues(ops[n], k) && Since(ops[..from], k) == 0
    ensures from <= first <= n && Enqueues(ops[first], k) && Number(ops, first) == 1
    decreases n - from
  {
    if Enqueues(ops[from], k) {
      NumberIsCount(ops, from, k);
      first := from;
    } else {
      assert ops[..from + 1][..from] == ops[..from];
      first := FirstIsOne(ops, from + 1, n, k);
    }
  }

  ghost predicate Repeats(ops: seq<Op>, k: Stream) {
    exists m, n :: 0 <= m < n < |ops| && Enqueues(ops[m], k) && Enqueues(ops[n], k) && Number(ops, m) == Number(ops, n)
  }

  ghost predicate FencedBetween(ops: seq<Op>, k: Stream, m: nat, n: nat)
    requires m < n < |ops|
  {
    exists j :: m < j < n && Fences(ops[j], k)
  }

  // A number of a stream is handed out twice exactly when a fence of that stream lies
  // between two of its enqueues, and never otherwise: the two with one number have one.
  lemma NumberRepeatsIffFenced(ops: seq<Op>, k: Stream)
    ensures Repeats(ops, k)
       <==> exists m, n :: 0 <= m < n < |ops| && Enqueues(ops[m], k) && Enqueues(ops[n], k) && FencedBetween(ops, k, m, n)
    ensures forall m, n :: 0 <= m < n < |ops| && Enqueues(ops[m], k) && Enqueues(ops[n], k) ==>
              Number(ops, m) == Number(ops, n) ==> FencedBetween(ops, k, m, n)
  {
    forall m, n | 0 <= m < n < |ops| && Enqueues(ops[m], k) && Enqueues(ops[n], k) && !FencedBetween(ops, k, m, n)
      ensures Number(ops, m) < Number(ops, n)
    {
      SinceGrows(ops, m, n, k);
      NumberIsCount(ops, m, k);
      NumberIsCount(ops, n, k);
    }
    forall m, n | 0 <= m < n < |ops| && Enqueues(ops[m], k) && Enqueues(ops[n], k) && FencedBetween(ops, k, m, n)
      ensures Repeats(ops, k)
    {
      FenceRepeats(ops, k, m, n);
    }
  }

  lemma FenceRepeats(ops: seq<Op>, k: Stream, m: nat, n: nat)
    requires m < n < |ops| && Enqueues(ops[m], k) && Enqueues(ops[n], k) && FencedBetween(ops, k, m, n)
    ensures Repeats(ops, k)
  {
    var j :| m < j < n && Fences(ops[j], k);
    var first := FirstIsOne(ops, 0, m, k);
    assert ops[..j + 1][|ops[..j + 1]| - 1] == ops[j];
    var again := FirstIsOne(ops, j + 1, n, k);
    assert Number(ops, first) == Number(ops, again);
  }
}
