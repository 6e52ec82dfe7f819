// The two spools: the volatile one the tests inject and the SQLite-backed one.
// Every method is proved to do what module Spool says, and to keep its cached
// counters equal to the sums over the table.
module SpoolStores {
  import opened Common
  import opened Spool

  const MAX_INPUT_ID_LEN := 256

  predicate ValidInputId(id: string) {
    0 < |id| <= MAX_INPUT_ID_LEN
  }

  predicate Routable(f: Frame) {
    f.Identity().sid != "" && f.Identity().pid != ""
  }

  // ---- What the table queries return ----------------------------------------

  // SELECT MAX(seq), 0 for no row.
  function MaxNum(rows: seq<Row>, k: Stream): nat {
    if rows == [] then 0
    else
      var rest := MaxNum(rows[1..], k);
      if rows[0].stream == k && rows[0].num > rest then rows[0].num else rest
  }

  // SELECT ... ORDER BY seq LIMIT 1.
  function SmallestRow(rows: seq<Row>, k: Stream): Option<Row> {
    if rows == [] then None
    else
      var rest := SmallestRow(rows[1..], k);
      if rows[0].stream == k && (rest.None? || rows[0].num <= rest.value.num) then Some(rows[0]) else rest
  }

  // DELETE ... WHERE stream and seq match.
  function Delete(rows: seq<Row>, k: Stream, num: int): seq<Row> {
    if rows == [] then []
    else (if rows[0].stream == k && rows[0].num == num then [] else [rows[0]]) + Delete(rows[1..], k, num)
  }

  // list.remove: the first equal element goes.
  function Remove(rows: seq<Row>, row: Row): seq<Row> {
    if rows == [] then []
    else if rows[0] == row then rows[1..]
    else [rows[0]] + Remove(rows[1..], row)
  }

  lemma {:induction false} MaxNumIsLast(rows: seq<Row>, k: Stream, acked: nat)
    requires Contiguous(Lane(rows, k), acked)
    ensures MaxNum(rows, k) == if Lane(rows, k) == [] then 0 else acked + |Lane(rows, k)|
  {
    if rows != [] {
      if rows[0].stream == k {
        assert Lane(rows, k)[0] == rows[0];
        assert Contiguous(Lane(rows[1..], k), acked + 1) by {
          forall i | 0 <= i < |Lane(rows[1..], k)|
            ensures Lane(rows[1..], k)[i].num == acked + 1 + 1 + i
          {
            assert Lane(rows, k)[i + 1] == Lane(rows[1..], k)[i];
          }
        }
        MaxNumIsLast(rows[1..], k, acked + 1);
      } else {
        assert Lane(rows, k) == Lane(rows[1..], k);
        MaxNumIsLast(rows[1..], k, acked);
      }
    }
  }

  lemma {:induction false} SmallestIsHead(rows: seq<Row>, k: Stream, acked: nat)
    requires Contiguous(Lane(rows, k), acked)
    ensures SmallestRow(rows, k) == if Lane(rows, k) == [] then None else Some(Lane(rows, k)[0])
  {
    if rows != [] {
      if rows[0].stream == k {
        var rest := Lane(rows[1..], k);
        assert Lane(rows, k)[0] == rows[0];
        forall i | 0 <= i < |rest|
          ensures rest[i].num == acked + 1 + 1 + i
        {
          assert Lane(rows, k)[i + 1] == rest[i];
        }
        SmallestIsHead(rows[1..], k, acked + 1);
      } else {
        assert Lane(rows, k) == Lane(rows[1..], k);
        SmallestIsHead(rows[1..], k, acked);
      }
    }
  }

  lemma {:induction false} DeleteAbsent(rows: seq<Row>, k: Stream, num: int)
    requires forall r :: r in rows && r.stream == k ==> r.num != num
    ensures Delete(rows, k, num) == rows
  {
    if rows != [] {
      assert rows[0] in rows;
      assert forall r :: r in rows[1..] ==> r in rows;
      DeleteAbsent(rows[1..], k, num);
    }
  }

  lemma {:induction false} DeleteIsWithoutFirst(rows: seq<Row>, k: Stream, acked: nat)
    requires Contiguous(Lane(rows, k), acked)
    requires Lane(rows, k) != []
    ensures Delete(rows, k, acked + 1) == WithoutFirst(rows, k)
  {
    if rows[0].stream == k {
      assert Lane(rows, k)[0] == rows[0];
      var rest := Lane(rows[1..], k);
      LaneMembers(rows[1..], k);
      forall r | r in rows[1..] && r.stream == k
        ensures r.num != acked + 1
      {
        assert r in rest;
        var i :| 0 <= i < |rest| && rest[i] == r;
        assert Lane(rows, k)[i + 1] == r;
      }
      DeleteAbsent(rows[1..], k, acked + 1);
    } else {
      assert Lane(rows, k) == Lane(rows[1..], k);
      DeleteIsWithoutFirst(rows[1..], k, acked);
    }
  }

  lemma {:induction false} RemoveIsWithoutFirst(rows: seq<Row>, k: Stream)
    requires Lane(rows, k) != []
    ensures Remove(rows, Lane(rows, k)[0]) == WithoutFirst(rows, k)
  {
    if rows[0].stream == k {
    } else {
      LaneMembers(rows, k);
      assert Lane(rows, k)[0] in Lane(rows, k);
      RemoveIsWithoutFirst(rows[1..], k);
    }
  }

  // Row i is the next element of its lane after the ones before it.
  lemma LanePosition(rows: seq<Row>, i: nat, k: Stream)
    requires i < |rows|
    ensures Lane(rows[..i + 1], k) == Lane(rows[..i], k) + (if rows[i].stream == k then [rows[i]] else [])
    ensures Lane(rows[..i + 1], k) <= Lane(rows, k)
  {
    assert rows[..i + 1] == rows[..i] + [rows[i]];
    LaneConcat(rows[..i], [rows[i]], k);
    assert rows == rows[..i + 1] + rows[i + 1..];
    LaneConcat(rows[..i + 1], rows[i + 1..], k);
  }

  class InMemorySpool {
    // Size of the canonical serialization of a frame with its sequence number.
    const measure: (Frame, nat) -> nat

    var rows: seq<Row>
    var lastAcked: map<Stream, nat>
    var ord: nat
    var pendingBytes: int
    var inputs: set<string>

    ghost function Model(): State
      reads this
    {
      State(rows, lastAcked, ord)
    }

    ghost predicate Valid()
      reads this
    {
      Inv(Model()) && pendingBytes == TotalBytes(rows)
    }

    constructor (measure: (Frame, nat) -> nat)
      ensures Valid() && Model() == EMPTY && inputs == {} && this.measure == measure
    {
      this.measure := measure;
      rows, lastAcked, ord, pendingBytes, inputs := [], map[], 0, 0, {};
    }

    // The largest number seen on the stream, acknowledged or pending, plus one.
    method NextSeq(key: Stream) returns (num: nat)
      requires Valid()
      ensures num == Lookup(lastAcked, key) + |Lane(rows, key)| + 1
    {
      var base := Lookup(lastAcked, key);
      assert Contiguous(Lane(rows, key), base);
      for i := 0 to |rows|
        invariant base == Lookup(lastAcked, key) + |Lane(rows[..i], key)|
      {
        LanePosition(rows, i, key);
        assert rows[i].stream == key ==> Lane(rows, key)[|Lane(rows[..i], key)|] == rows[i];
        if rows[i].stream == key && rows[i].num > base {
          base := rows[i].num;
        }
      }
      assert rows[..|rows|] == rows;
      num := base + 1;
    }

    method EnqueueOutput(frame: Frame) returns (r: Result<nat>)
      requires Valid()
      modifies this
      ensures Valid() && inputs == old(inputs)
      ensures r.Ok? <==> Routable(frame)
      ensures r.Err? ==> Model() == old(Model())
      ensures r.Ok? ==>
                && r.value == Lookup(old(lastAcked), frame.Identity()) + |Lane(old(rows), frame.Identity())| + 1
                && Model() == Enqueue(old(Model()), frame, measure(frame.Emitted(), r.value))
    {
      var key := frame.Identity();
      if key.sid == "" || key.pid == "" {
        return Err("frame requires nonempty session_id and pty_instance_id");
      }
      var num := NextSeq(key);
      var emitted := frame.Emitted();
      var bytes := measure(emitted, num);
      EnqueueRefines(Model(), frame, bytes, key);
      BytesConcat(rows, [Row(ord + 1, key, num, emitted, bytes)]);
      ord := ord + 1;
      rows := rows + [Row(ord, key, num, emitted, bytes)];
      pendingBytes := pendingBytes + bytes;
      r := Ok(num);
    }

    // The candidate with the smallest number on the stream, if there is one.
    method Smallest(key: Stream) returns (smallest: Option<Row>)
      requires Valid()
      ensures smallest == if Lane(rows, key) == [] then None else Some(Lane(rows, key)[0])
    {
      smallest := None;
      ghost var lane := Lane(rows, key);
      assert Contiguous(lane, Lookup(lastAcked, key));
      for i := 0 to |rows|
        invariant smallest.None? <==> Lane(rows[..i], key) == []
        invariant Lane(rows[..i], key) <= lane
        invariant smallest.Some? ==> smallest.value == lane[0]
      {
        LanePosition(rows, i, key);
        assert rows[i].stream == key ==> lane[|Lane(rows[..i], key)|] == rows[i];
        if rows[i].stream == key && (smallest.None? || rows[i].num < smallest.value.num) {
          smallest := Some(rows[i]);
        }
      }
      assert rows[..|rows|] == rows;
    }

    method AckIdentity(key: Stream, num: int) returns (advanced: bool)
      requires Valid()
      modifies this
      ensures Valid() && inputs == old(inputs)
      ensures Model() == Ack(old(Model()), key, num)
      ensures advanced == Acks(old(Model()), key, num)
    {
      var smallest := Smallest(key);
      if smallest.None? {
        return false;
      }
      var last := Lookup(lastAcked, key);
      assert Contiguous(Lane(rows, key), last);
      if num != smallest.value.num || num != last + 1 {
        return false;
      }
      AckKeepsInv(Model(), key, num);
      RemoveIsWithoutFirst(rows, key);
      WithoutFirstBytes(rows, key);
      rows := Remove(rows, smallest.value);
      pendingBytes := pendingBytes - smallest.value.bytes;
      lastAcked := lastAcked[key := num];
      advanced := true;
    }

    method AckByOrd(delivery: nat) returns (advanced: bool)
      requires Valid()
      modifies this
      ensures Valid() && inputs == old(inputs)
      ensures Model() == AckOrd(old(Model()), delivery)
      ensures advanced == AcksOrd(old(Model()), delivery)
    {
      var row := Find(rows, delivery);
      if row.None? {
        return false;
      }
      advanced := AckIdentity(row.value.stream, row.value.num);
    }

    method FenceStream(key: Stream) returns (removed: nat)
      requires Valid()
      modifies this
      ensures Valid() && inputs == old(inputs)
      ensures Model() == Fence(old(Model()), key)
      ensures removed == |Lane(old(rows), key)|
    {
      FenceKeepsInv(Model(), key);
      WithoutBytes(rows, key);
      var table := rows;
      var keep, bytes := [], 0;
      for i := 0 to |table|
        invariant unchanged(this)
        invariant keep == Without(table[..i], key)
        invariant bytes == TotalBytes(keep)
      {
        assert table[..i + 1] == table[..i] + [table[i]];
        WithoutConcat(table[..i], [table[i]], key);
        if table[i].stream != key {
          BytesConcat(keep, [table[i]]);
          keep := keep + [table[i]];
          bytes := bytes + table[i].bytes;
        }
      }
      assert table[..|table|] == table;
      removed := |table| - |keep|;
      rows := keep;
      pendingBytes := bytes;
      lastAcked := lastAcked - {key};
    }

    method PendingUsage() returns (frames: nat, bytes: nat)
      requires Valid()
      ensures frames == |rows| && bytes == TotalBytes(rows)
    {
      frames, bytes := |rows|, pendingBytes;
    }

    method RecordInputOnce(id: string) returns (r: Result<bool>)
      requires Valid()
      modifies this
      ensures Valid() && Model() == old(Model())
      ensures r.Ok? <==> ValidInputId(id)
      ensures r.Ok? ==> r.value == (id !in old(inputs))
      ensures inputs == if ValidInputId(id) then old(inputs) + {id} else old(inputs)
    {
      if |id| == 0 {
        return Err("client_input_id must be a nonempty string");
      }
      if |id| > MAX_INPUT_ID_LEN {
        return Err("client_input_id too long");
      }
      if id in inputs {
        return Ok(false);
      }
      inputs := inputs + {id};
      r := Ok(true);
    }
  }

  lemma {:induction false} WithoutConcat(a: seq<Row>, b: seq<Row>, k: Stream)
    ensures Without(a + b, k) == Without(a, k) + Without(b, k)
  {
    if a == [] {
      assert a + b == b;
    } else {
      assert (a + b)[1..] == a[1..] + b;
      WithoutConcat(a[1..], b, k);
    }
  }

  // The SQLite spool. `failing` stands for a transaction that raises: it is
  // rolled back, and the cached counters are only touched after a commit.
  class DiskSpool {
    const measure: (Frame, nat) -> nat

    var isOpen: bool
    var outbox: seq<Row>            // in primary-key order
    var sequence: nat               // the AUTOINCREMENT counter, which survives deletes
    var ackState: map<Stream, nat>
    var receipts: set<string>
    var pendingFrames: int
    var pendingBytes: int

    ghost function Model(): State
      reads this
    {
      State(outbox, ackState, sequence)
    }

    ghost predicate Valid()
      reads this
    {
      && Inv(Model())
      && pendingFrames == |outbox|
      && pendingBytes == TotalBytes(outbox)
    }

    // Opening an existing database recounts the cached totals.
    constructor (measure: (Frame, nat) -> nat, file: State, receipts: set<string>)
      requires Inv(file)
      ensures Valid() && isOpen
      ensures Model() == file && this.receipts == receipts && this.measure == measure
    {
      this.measure := measure;
      this.isOpen := true;
      this.outbox, this.sequence, this.ackState, this.receipts := file.rows, file.lastOrd, file.acked, receipts;
      this.pendingFrames, this.pendingBytes := |file.rows|, TotalBytes(file.rows);
    }

    method EnqueueOutput(frame: Frame, failing: bool) returns (r: Result<nat>)
      requires Valid()
      modifies this
      ensures Valid() && receipts == old(receipts) && isOpen == old(isOpen)
      ensures r.Ok? <==> Routable(frame) && isOpen && !failing
      ensures r.Err? ==> Model() == old(Model())
      ensures r.Ok? ==>
                && r.value == Lookup(old(ackState), frame.Identity()) + |Lane(old(outbox), frame.Identity())| + 1
                && Model() == Enqueue(old(Model()), frame, measure(frame.Emitted(), r.value))
    {
      var key := frame.Identity();
      if key.sid == "" || key.pid == "" {
        return Err("frame requires nonempty session_id and pty_instance_id");
      }
      if !isOpen {
        return Err("spool is closed");
      }
      var maxOut := MaxNum(outbox, key);
      var lastAck := Lookup(ackState, key);
      assert Contiguous(Lane(outbox, key), lastAck);
      MaxNumIsLast(outbox, key, lastAck);
      var num := (if maxOut > lastAck then maxOut else lastAck) + 1;
      var emitted := frame.Emitted();
      var bytes := measure(emitted, num);
      if failing {
        return Err("transaction rolled back");
      }
      EnqueueRefines(Model(), frame, bytes, key);
      BytesConcat(outbox, [Row(sequence + 1, key, num, emitted, bytes)]);
      sequence := sequence + 1;
      outbox := outbox + [Row(sequence, key, num, emitted, bytes)];
      pendingFrames := pendingFrames + 1;
      pendingBytes := pendingBytes + bytes;
      r := Ok(num);
    }

    method AckIdentity(key: Stream, num: int, failing: bool) returns (r: Result<bool>)
      requires Valid()
      modifies this
      ensures Valid() && receipts == old(receipts) && isOpen == old(isOpen)
      ensures Model() == if r.Ok? then Ack(old(Model()), key, num) else old(Model())
      ensures r.Ok? ==> r.value == Acks(old(Model()), key, num)
      ensures isOpen && !failing ==> r.Ok?
    {
      if !isOpen {
        return Err("spool is closed");
      }
      var smallest := SmallestRow(outbox, key);
      var last := Lookup(ackState, key);
      assert Contiguous(Lane(outbox, key), last);
      SmallestIsHead(outbox, key, last);
      if smallest.None? {
        return Ok(false);
      }
      if num != smallest.value.num || num != last + 1 {
        return Ok(false);
      }
      if failing {
        return Err("transaction rolled back");
      }
      AckKeepsInv(Model(), key, num);
      DeleteIsWithoutFirst(outbox, key, last);
      WithoutFirstBytes(outbox, key);
      ackState := ackState[key := num];
      outbox := Delete(outbox, key, num);
      pendingFrames := pendingFrames - 1;
      pendingBytes := pendingBytes - smallest.value.bytes;
      r := Ok(true);
    }

    method AckByOrd(delivery: nat, failing: bool) returns (r: Result<bool>)
      requires Valid()
      modifies this
      ensures Valid() && receipts == old(receipts) && isOpen == old(isOpen)
      ensures Model() == if r.Ok? then AckOrd(old(Model()), delivery) else old(Model())
      ensures r.Ok? ==> r.value == AcksOrd(old(Model()), delivery)
      ensures isOpen && !failing ==> r.Ok?
    {
      if !isOpen {
        return Err("spool is closed");
      }
      var row := Find(outbox, delivery);
      if row.None? {
        return Ok(false);
      }
      r := AckIdentity(row.value.stream, row.value.num, failing);
    }

    method FenceStream(key: Stream, failing: bool) returns (r: Result<nat>)
      requires Valid()
      modifies this
      ensures Valid() && receipts == old(receipts) && isOpen == old(isOpen)
      ensures r.Ok? <==> isOpen && !failing
      ensures Model() == if r.Ok? then Fence(old(Model()), key) else old(Model())
      ensures r.Ok? ==> r.value == |Lane(old(outbox), key)|
    {
      if !isOpen {
        return Err("spool is closed");
      }
      if failing {
        return Err("transaction rolled back");
      }
      FenceKeepsInv(Model(), key);
      WithoutBytes(outbox, key);
      var removedBytes := TotalBytes(Lane(outbox, key));
      var removed := |Lane(outbox, key)|;
      outbox := Without(outbox, key);
      ackState := ackState - {key};
      pendingFrames := pendingFrames - removed;
      pendingBytes := pendingBytes - removedBytes;
      r := Ok(removed);
    }

    // The primary key of input_receipts decides; a second insert is a duplicate.
    method RecordInputOnce(id: string, failing: bool) returns (r: Result<bool>)
      requires Valid()
      modifies this
      ensures Valid() && Model() == old(Model()) && isOpen == old(isOpen)
      ensures r.Ok? <==> ValidInputId(id) && isOpen && (id in old(receipts) || !failing)
      ensures r.Ok? ==> r.value == (id !in old(receipts)) && receipts == old(receipts) + {id}
      ensures r.Err? ==> receipts == old(receipts)
    {
      if !ValidInputId(id) {
        return Err("client_input_id must be a nonempty string of bounded length");
      }
      if !isOpen {
        return Err("spool is closed");
      }
      if id in receipts {
        return Ok(false);
      }
      if failing {
        return Err("transaction rolled back");
      }
      receipts := receipts + {id};
      r := Ok(true);
    }

    method PendingUsage() returns (r: Result<(nat, nat)>)
      requires Valid()
      ensures isOpen ==> r == Ok((|outbox|, TotalBytes(outbox)))
      ensures !isOpen ==> r.Err?
    {
      if !isOpen {
        return Err("spool is closed");
      }
      r := Ok((pendingFrames, pendingBytes));
    }

    method Close()
      requires Valid()
      modifies this
      ensures Valid() && !isOpen && Model() == old(Model()) && receipts == old(receipts)
    {
      isOpen := false;
    }
  }

  // ---- The two spools side by side ---------------------------------------------

  datatype Call =
    | EnqueueCall(frame: Frame)
    | AckCall(key: Stream, num: int)
    | AckOrdCall(delivery: nat)
    | FenceCall(key: Stream)
    | InputCall(id: string)
    | UsageCall

  datatype Answer =
    | Refused
    | Numbered(num: nat)
    | Advanced(yes: bool)
    | Removed(count: nat)
    | First(yes: bool)
    | Usage(frames: nat, bytes: nat)

  // What either spool answers, from its table and its receipts alone.
  function AnswerTo(s: State, receipts: set<string>, call: Call): Answer {
    match call
    case EnqueueCall(f) =>
      if Routable(f) then Numbered(Lookup(s.acked, f.Identity()) + |Lane(s.rows, f.Identity())| + 1) else Refused
    case AckCall(key, num) => Advanced(Acks(s, key, num))
    case AckOrdCall(delivery) => Advanced(AcksOrd(s, delivery))
    case FenceCall(key) => Removed(|Lane(s.rows, key)|)
    case InputCall(id) => if ValidInputId(id) then First(id !in receipts) else Refused
    case UsageCall => Usage(|s.rows|, TotalBytes(s.rows))
  }

  function After(measure: (Frame, nat) -> nat, s: State, call: Call): State {
    match call
    case EnqueueCall(f) =>
      if Routable(f)
      then Enqueue(s, f, measure(f.Emitted(), Lookup(s.acked, f.Identity()) + |Lane(s.rows, f.Identity())| + 1))
      else s
    case AckCall(key, num) => Ack(s, key, num)
    case AckOrdCall(delivery) => AckOrd(s, delivery)
    case FenceCall(key) => Fence(s, key)
    case _ => s
  }

  function ReceiptsAfter(receipts: set<string>, call: Call): set<string> {
    if call.InputCall? && ValidInputId(call.id) then receipts + {call.id} else receipts
  }

  method CallMemory(memory: InMemorySpool, call: Call) returns (answer: Answer)
    requires memory.Valid()
    modifies memory
    ensures memory.Valid()
    ensures answer == AnswerTo(old(memory.Model()), old(memory.inputs), call)
    ensures memory.Model() == After(memory.measure, old(memory.Model()), call)
    ensures memory.inputs == ReceiptsAfter(old(memory.inputs), call)
  {
    match call
    case EnqueueCall(frame) =>
      var n := memory.EnqueueOutput(frame);
      answer := if n.Ok? then Numbered(n.value) else Refused;
    case AckCall(key, num) =>
      var advanced := memory.AckIdentity(key, num);
      answer := Advanced(advanced);
    case AckOrdCall(delivery) =>
      var advanced := memory.AckByOrd(delivery);
      answer := Advanced(advanced);
    case FenceCall(key) =>
      var removed := memory.FenceStream(key);
      answer := Removed(removed);
    case InputCall(id) =>
      var first := memory.RecordInputOnce(id);
      answer := if first.Ok? then First(first.value) else Refused;
    case UsageCall =>
      var frames, bytes := memory.PendingUsage();
      answer := Usage(frames, bytes);
  }

  method CallDisk(disk: DiskSpool, call: Call) returns (answer: Answer)
    requires disk.Valid() && disk.isOpen
    modifies disk
    ensures disk.Valid() && disk.isOpen
    ensures answer == AnswerTo(old(disk.Model()), old(disk.receipts), call)
    ensures disk.Model() == After(disk.measure, old(disk.Model()), call)
    ensures disk.receipts == ReceiptsAfter(old(disk.receipts), call)
  {
    match call
    case EnqueueCall(frame) =>
      var n := disk.EnqueueOutput(frame, false);
      answer := if n.Ok? then Numbered(n.value) else Refused;
    case AckCall(key, num) =>
      var advanced := disk.AckIdentity(key, num, false);
      answer := Advanced(advanced.value);
    case AckOrdCall(delivery) =>
      var advanced := disk.AckByOrd(delivery, false);
      answer := Advanced(advanced.value);
    case FenceCall(key) =>
      var removed := disk.FenceStream(key, false);
      answer := Removed(removed.value);
    case InputCall(id) =>
      var first := disk.RecordInputOnce(id, false);
      answer := if first.Ok? then First(first.value) else Refused;
    case UsageCall =>
      var usage := disk.PendingUsage();
      answer := Usage(usage.value.0, usage.value.1);
  }

  // A client of both spools: to any calls, in any order, the two give the same answers
  // and stay in the same state, as long as no transaction of the disk fails.
  method SameBehaviour(memory: InMemorySpool, disk: DiskSpool, calls: seq<Call>)
    returns (fromMemory: seq<Answer>, fromDisk: seq<Answer>)
    requires memory.Valid() && disk.Valid() && disk.isOpen && memory.measure == disk.measure
    requires memory.Model() == disk.Model() && memory.inputs == disk.receipts
    modifies memory, disk
    ensures memory.Valid() && disk.Valid()
    ensures fromMemory == fromDisk && |fromDisk| == |calls|
    ensures memory.Model() == disk.Model() && memory.inputs == disk.receipts
  {
    fromMemory, fromDisk := [], [];
    for i := 0 to |calls|
      invariant memory.Valid() && disk.Valid() && disk.isOpen
      invariant fromMemory == fromDisk && |fromDisk| == i
      invariant memory.Model() == disk.Model() && memory.inputs == disk.receipts
    {
      var mine := CallMemory(memory, calls[i]);
      var theirs := CallDisk(disk, calls[i]);
      fromMemory, fromDisk := fromMemory + [mine], fromDisk + [theirs];
    }
  }
}
