// The connector's transport: what it has sent and not yet seen answered, and what it
// does with each answer of the server.
module Transport {
  import opened Common
  import Spool
  import Recording
  import opened Pipeline

  // The outstanding numbers of a stream.
  function Outstanding(m: map<Ident, Spool.Row>, k: Stream): set<nat> {
    set id | id in m && id.stream == k :: id.num
  }

  ghost predicate Increasing(nums: seq<nat>) {
    forall i, j :: 0 <= i < j < |nums| ==> nums[i] < nums[j]
  }

  function RowsOf(m: map<Ident, Spool.Row>, k: Stream, nums: seq<nat>): seq<Spool.Row>
    requires forall n :: n in nums ==> Ident(k, n) in m
  {
    if nums == [] then [] else [m[Ident(k, nums[0])]] + RowsOf(m, k, nums[1..])
  }

  lemma IncreasingAppend(nums: seq<nat>, n: nat)
    requires Increasing(nums) && forall x :: x in nums ==> x < n
    ensures Increasing(nums + [n])
  {
    forall i, j | 0 <= i < j < |nums + [n]|
      ensures (nums + [n])[i] < (nums + [n])[j]
    {
      assert nums != [] ==> nums[if i < |nums| then i else 0] in nums;
    }
  }

  method Least(nums: set<nat>) returns (least: nat)
    requires nums != {}
    ensures least in nums && forall n :: n in nums ==> least <= n
  {
    var rest := nums;
    least :| least in rest;
    rest := rest - {least};
    while rest != {}
      invariant least in nums && rest <= nums
      invariant forall n :: n in nums && n !in rest ==> least <= n
      decreases rest
    {
      var n :| n in rest;
      rest := rest - {n};
      if n < least {
        least := n;
      }
    }
  }

  method Sorted(nums: set<nat>) returns (sorted: seq<nat>)
    ensures Increasing(sorted) && forall n :: n in sorted <==> n in nums
  {
    sorted := [];
    var rest := nums;
    while rest != {}
      invariant rest <= nums && Increasing(sorted)
      invariant forall n :: n in sorted <==> n in nums && n !in rest
      invariant forall n, m :: n in sorted && m in rest ==> n < m
      decreases rest
    {
      var n := Least(rest);
      IncreasingAppend(sorted, n);
      rest := rest - {n};
      sorted := sorted + [n];
    }
  }

  lemma LeastIsFirst(nums: seq<nat>, least: nat)
    requires Increasing(nums) && least in nums && forall n :: n in nums ==> least <= n
    ensures nums[0] == least
  {
    var i :| 0 <= i < |nums| && nums[i] == least;
    assert nums[0] in nums;
    assert nums[0] <= nums[i];
  }

  lemma RestIncreasing(nums: seq<nat>)
    requires Increasing(nums) && nums != []
    ensures Increasing(nums[1..])
    ensures forall n :: n in nums[1..] ==> n in nums && nums[0] < n
    ensures forall n :: n in nums ==> n == nums[0] || n in nums[1..]
  {
    forall i, j | 0 <= i < j < |nums[1..]|
      ensures nums[1..][i] < nums[1..][j]
    {
      assert nums[i + 1] < nums[j + 1];
    }
    forall n | n in nums[1..]
      ensures n in nums && nums[0] < n
    {
      var i :| 0 <= i < |nums[1..]| && nums[1..][i] == n;
      assert nums[i + 1] == n;
    }
  }

  // Sending the sorted tail is resending from the expected number on.
  lemma {:induction false} SortedIsResend(m: map<Ident, Spool.Row>, k: Stream, nums: seq<nat>, expected: nat, last: nat)
    requires Increasing(nums) && forall n :: n in nums ==> expected <= n <= last
    requires forall n :: expected <= n <= last ==> (n in nums <==> Ident(k, n) in m)
    ensures RowsOf(m, k, nums) == ResendFrom(m, k, expected, last)
    decreases last + 1 - expected
  {
    if nums == [] {
      ResendsNothing(m, k, expected, last);
    } else {
      assert nums[0] in nums;
      if expected in nums {
        LeastIsFirst(nums, expected);
        RestIncreasing(nums);
        SortedIsResend(m, k, nums[1..], expected + 1, last);
      } else {
        SortedIsResend(m, k, nums, expected + 1, last);
      }
    }
  }

  lemma {:induction false} ResendsNothing(m: map<Ident, Spool.Row>, k: Stream, expected: nat, last: nat)
    requires forall n :: expected <= n <= last ==> Ident(k, n) !in m
    ensures ResendFrom(m, k, expected, last) == []
    decreases last + 1 - expected
  {
    if expected <= last {
      ResendsNothing(m, k, expected + 1, last);
    }
  }

  class TransportSession {
    var c: Conn

    constructor ()
      ensures c == NEW_CONN
    {
      c := NEW_CONN;
    }

    // Records before sending, so that a fast answer always finds the row.
    method ForwardDelivery()
      requires c.ipc != []
      modifies this
      ensures c == Forwarded(old(c))
      ensures var r := old(c).ipc[0];
              c == old(c).(ipc := old(c).ipc[1..], ws := old(c).ws + [r],
                           outstanding := old(c).outstanding[Ident(r.stream, r.num) := r])
    {
      var r := c.ipc[0];
      c := c.(ipc := c.ipc[1..], outstanding := c.outstanding[Ident(r.stream, r.num) := r]);
      c := c.(ws := c.ws + [r]);
    }

    method HandleAck(k: Stream, num: nat)
      modifies this
      ensures forall last: nat :: c == OnReply(old(c), Recording.AckReply(k, num), last)
      ensures if Ident(k, num) in old(c).outstanding
              then c == old(c).(outstanding := old(c).outstanding - {Ident(k, num)},
                                up := old(c).up + [DeliveryAck(old(c).outstanding[Ident(k, num)].ord)])
              else c == old(c)
    {
      var id := Ident(k, num);
      if id !in c.outstanding {
        return;
      }
      var ord := c.outstanding[id].ord;
      c := c.(outstanding := c.outstanding - {id});
      c := c.(up := c.up + [DeliveryAck(ord)]);
    }

    // Any other rejection of output ends the connection; the rows stay outstanding.
    method HandleError(sid: string, message: string)
      modifies this
      ensures forall last: nat :: c == OnReply(old(c), Recording.ErrorReply(sid, message), last)
      ensures c == old(c).(open := false, ipc := [], down := [])
    {
      c := c.(open := false);
      c := c.(ipc := [], down := []);
    }

    // Resends the requested row and every later outstanding one of the stream, or
    // gives the connection up.
    method HandleResend(k: Stream, expected: nat)
      modifies this
      ensures forall last: nat ::
                (forall n :: n in Outstanding(old(c).outstanding, k) ==> n <= last) ==>
                  c == OnReply(old(c), Recording.ResendReply(k, expected), last)
      ensures Ident(k, expected) in old(c).outstanding ==>
                exists nums: seq<nat> ::
                  && Increasing(nums)
                  && (forall n :: n in nums <==> n >= expected && Ident(k, n) in old(c).outstanding)
                  && c == old(c).(ws := old(c).ws + RowsOf(old(c).outstanding, k, nums))
      ensures Ident(k, expected) !in old(c).outstanding ==> c == old(c).(open := false, ipc := [], down := [])
    {
      var stream := Sorted(Outstanding(c.outstanding, k));
      if expected !in stream {
        c := Raises(c);
        return;
      }
      var tail: seq<nat> := [];
      var sent: seq<Spool.Row> := [];
      for i := 0 to |stream|
        invariant c == old(c)
        invariant forall n :: n in tail <==> n in stream[..i] && n >= expected
        invariant Increasing(tail) && (forall n :: n in tail ==> Ident(k, n) in c.outstanding)
        invariant sent == RowsOf(c.outstanding, k, tail)
      {
        assert stream[i] in stream;
        if stream[i] >= expected {
          RowsOfAppend(c.outstanding, k, tail, stream[i]);
          forall x | x in tail
            ensures x < stream[i]
          {
            var j :| 0 <= j < |stream[..i]| && stream[..i][j] == x;
            assert stream[j] < stream[i];
          }
          IncreasingAppend(tail, stream[i]);
          sent := sent + [c.outstanding[Ident(k, stream[i])]];
          tail := tail + [stream[i]];
        }
      }
      assert stream[..|stream|] == stream;
      forall last: nat | forall n :: n in Outstanding(c.outstanding, k) ==> n <= last
        ensures sent == ResendFrom(c.outstanding, k, expected, last)
      {
        SortedIsResend(c.outstanding, k, tail, expected, last);
      }
      c := c.(ws := c.ws + sent);
    }

    method HandleFence(k: Stream, num: nat)
      modifies this
      ensures forall last: nat :: c == OnReply(old(c), Recording.FenceReply(k, num), last)
      ensures forall id :: id in c.outstanding <==> id in old(c).outstanding && id.stream != k
      ensures forall id :: id in c.outstanding ==> c.outstanding[id] == old(c).outstanding[id]
      ensures c == old(c).(outstanding := c.outstanding, up := c.up)
      ensures c.up == if exists id :: id in old(c).outstanding && id.stream == k
                      then old(c).up + [FenceMessage(k)] else old(c).up
    {
      var removed := set id | id in c.outstanding && id.stream == k;
      if removed == {} {
        assert !exists id :: id in c.outstanding && id.stream == k by {
          forall id | id in c.outstanding
            ensures id.stream != k
          {
            assert id !in removed;
          }
        }
        return;
      }
      var one :| one in removed;
      assert one in c.outstanding && one.stream == k;
      c := c.(outstanding := c.outstanding - removed, up := c.up + [FenceMessage(k)]);
      assert c.outstanding == map id | id in old(c).outstanding && id.stream != k :: old(c).outstanding[id];
    }
  }

  lemma {:induction false} RowsOfAppend(m: map<Ident, Spool.Row>, k: Stream, nums: seq<nat>, n: nat)
    requires (forall x :: x in nums ==> Ident(k, x) in m) && Ident(k, n) in m
    ensures RowsOf(m, k, nums + [n]) == RowsOf(m, k, nums) + [m[Ident(k, n)]]
  {
    if nums != [] {
      assert (nums + [n])[1..] == nums[1..] + [n];
      RowsOfAppend(m, k, nums[1..], n);
    }
  }

  // When everything from the expected number on is outstanding, what is resent is a
  // contiguous tail: a server that asked for the expected number takes all of it.
  lemma {:induction false} ResendIsContiguous(m: map<Ident, Spool.Row>, k: Stream, expected: nat, last: nat)
    requires forall n :: expected <= n <= last ==> Ident(k, n) in m
    requires forall id :: id in m ==> m[id].stream == id.stream && m[id].num == id.num
    ensures var nums := Nums(ResendFrom(m, k, expected, last), k);
            |nums| == (if expected <= last then last + 1 - expected else 0)
            && forall i :: 0 <= i < |nums| ==> nums[i] == expected + i
    decreases last + 1 - expected
  {
    if expected <= last {
      ResendIsContiguous(m, k, expected + 1, last);
      var r := m[Ident(k, expected)];
      var rest := ResendFrom(m, k, expected + 1, last);
      assert ([r] + rest)[1..] == rest;
    }
  }

  // ---- Answers on one stream leave the others alone ---------------------------------------------

  function Answered(c: Conn, replies: seq<Recording.Reply>, last: nat): Conn
    decreases |replies|
  {
    if replies == [] then c else Answered(OnReply(c, replies[0], last), replies[1..], last)
  }

  // The answer that settles a row: its acknowledgement or a fence of its stream.
  predicate Settles(reply: Recording.Reply, id: Ident) {
    || (reply.AckReply? && reply.stream == id.stream && reply.num == id.num)
    || (reply.FenceReply? && reply.stream == id.stream)
  }

  // Whatever else is answered, fences of other streams included, a row stays outstanding
  // until its own answer comes, and its acknowledgement then releases its own delivery.
  lemma {:induction false} OwnAnswerReleases(c: Conn, replies: seq<Recording.Reply>, last: nat, id: Ident)
    requires id in c.outstanding
    requires forall i :: 0 <= i < |replies| ==> !Settles(replies[i], id)
    ensures var d := Answered(c, replies, last);
            && id in d.outstanding && d.outstanding[id] == c.outstanding[id]
            && var e := OnReply(d, Recording.AckReply(id.stream, id.num), last);
               e.up == d.up + [DeliveryAck(c.outstanding[id].ord)] && id !in e.outstanding
    decreases |replies|
  {
    if replies != [] {
      assert !Settles(replies[0], id);
      OwnAnswerReleases(OnReply(c, replies[0], last), replies[1..], last, id);
    }
  }

  // Reads of one transport, one after the other.
  function Reads(i: nat, n: nat): seq<Action> {
    seq(n, _ => TransportRead(i))
  }

  // One read handles one answer, also while the supervisor hangs.
  lemma ReadStep(s: Sys, i: nat, id: Ident)
    requires i < |s.conns| && s.conns[i].down != [] && id in s.conns[i].outstanding
    requires (s.conns[i].down[0].AckReply? || s.conns[i].down[0].FenceReply?) && !Settles(s.conns[i].down[0], id)
    ensures var t := Step(s, TransportRead(i));
            && |t.conns| == |s.conns| && t.conns[i].down == s.conns[i].down[1..]
            && id in t.conns[i].outstanding && t.conns[i].outstanding[id] == s.conns[i].outstanding[id]
  {
  }

  lemma LastRead(s: Sys, i: nat, id: Ident)
    requires i < |s.conns| && s.conns[i].down != [] && id in s.conns[i].outstanding
    requires s.conns[i].down[0] == Recording.AckReply(id.stream, id.num)
    ensures var t := Step(s, TransportRead(i));
            && |t.conns| == |s.conns| && t.conns[i].up == s.conns[i].up + [DeliveryAck(s.conns[i].outstanding[id].ord)]
            && id !in t.conns[i].outstanding
  {
  }

  // In the whole system: behind any acknowledgements of other rows and fences of other
  // streams, the acknowledgement of a row still reaches the supervisor as its delivery id.
  lemma {:induction false} FenceSparesOthers(s: Sys, i: nat, n: nat, id: Ident)
    requires i < |s.conns| && n < |s.conns[i].down| && id in s.conns[i].outstanding
    requires s.conns[i].down[n] == Recording.AckReply(id.stream, id.num)
    requires forall j :: 0 <= j < n ==>
               (s.conns[i].down[j].AckReply? || s.conns[i].down[j].FenceReply?) && !Settles(s.conns[i].down[j], id)
    ensures var t := Run(s, Reads(i, n + 1));
            && i < |t.conns| && t.conns[i].up != []
            && t.conns[i].up[|t.conns[i].up| - 1] == DeliveryAck(s.conns[i].outstanding[id].ord)
            && id !in t.conns[i].outstanding
    decreases n
  {
    var t := Step(s, TransportRead(i));
    assert Reads(i, n + 1)[1..] == Reads(i, n);
    if n == 0 {
      LastRead(s, i, id);
      assert Run(s, Reads(i, 1)) == Run(t, Reads(i, 0)) == t;
    } else {
      ReadStep(s, i, id);
      FenceSparesOthers(t, i, n - 1, id);
    }
  }

  // A fence that arrives goes all the way: the transport forgets the stream, and once the
  // supervisor has read of it the spool holds no row and no mark of the stream, and every
  // row of the others.
  lemma FenceArrives(s: Sys, i: nat, k: Stream, num: nat)
    requires Spool.Inv(s.sup.spool) && !s.hung
    requires i < |s.conns| && s.conns[i].down != [] && s.conns[i].down[0] == Recording.FenceReply(k, num)
    requires s.conns[i].up == [] && exists id :: id in s.conns[i].outstanding && id.stream == k
    ensures var t := Step(Step(s, TransportRead(i)), SupervisorRead(i));
            && (forall id :: id in t.conns[i].outstanding <==> id in s.conns[i].outstanding && id.stream != k)
            && (forall r :: r in t.sup.spool.rows <==> r in s.sup.spool.rows && r.stream != k)
            && (forall m :: m in t.sup.spool.acked <==> m in s.sup.spool.acked && m != k)
            && (forall m :: m in t.sup.spool.acked ==> t.sup.spool.acked[m] == s.sup.spool.acked[m])
            && t.conns[i].up == []
  {
    FenceRead(s, i, k, num);
    var t := Step(s, TransportRead(i));
    FenceTaken(t, i, k);
  }

  lemma FenceRead(s: Sys, i: nat, k: Stream, num: nat)
    requires i < |s.conns| && s.conns[i].down != [] && s.conns[i].down[0] == Recording.FenceReply(k, num)
    requires s.conns[i].up == [] && exists id :: id in s.conns[i].outstanding && id.stream == k
    ensures var t := Step(s, TransportRead(i));
            && t.sup == s.sup && t.hung == s.hung && |t.conns| == |s.conns| && t.conns[i].up == [FenceMessage(k)]
            && (forall id :: id in t.conns[i].outstanding <==> id in s.conns[i].outstanding && id.stream != k)
  {
  }

  lemma FenceTaken(s: Sys, i: nat, k: Stream)
    requires Spool.Inv(s.sup.spool) && !s.hung && i < |s.conns| && s.conns[i].up == [FenceMessage(k)]
    ensures var t := Step(s, SupervisorRead(i));
            && (forall r :: r in t.sup.spool.rows <==> r in s.sup.spool.rows && r.stream != k)
            && (forall m :: m in t.sup.spool.acked <==> m in s.sup.spool.acked && m != k)
            && (forall m :: m in t.sup.spool.acked ==> t.sup.spool.acked[m] == s.sup.spool.acked[m])
            && |t.conns| == |s.conns| && t.conns[i] == s.conns[i].(up := [])
  {
    Spool.WithoutMembers(s.sup.spool.rows, k);
  }

  // What an idle connection's server side puts on the way back for the frame it reads: an
  // error if it is too large, an acknowledgement if its payload is stored, a fence if
  // another one is, the frontier if numbers are missing, and nothing yet if it is next.
  lemma ServerAnswers(s: Sys, i: nat, redact: bool, now: int)
    requires Recording.WorldInv(s.world) && i < |s.conns| && s.conns[i].ws != [] && i !in s.world.held
    requires s.conns[i].ws[0].num >= 1
    ensures var t := Step(s, ServerRead(i, redact, now)); var f := s.conns[i].ws[0].frame;
            var k := f.WireStream(); var num := s.conns[i].ws[0].num;
            var hash := Recording.PayloadHash(f.kind, f.data);
            var frontier := Recording.Frontier(s.world.rows, k);
            && |t.conns| == |s.conns| && t.conns[i].ws == s.conns[i].ws[1..] && t.sup == s.sup
            && t.conns[i].down == s.conns[i].down
                 + (if Utf8Size(f.data) > MAX_DATA_BYTES then [Recording.ErrorReply(k.sid, "data too large")]
                    else if num == frontier + 1 then []
                    else if num > frontier + 1 then [Recording.ResendReply(k, frontier + 1)]
                    else if Recording.HasRow(s.world.rows, k, num, hash) then [Recording.AckReply(k, num)]
                    else [Recording.FenceReply(k, num)])
            && (i in t.world.held <==> Utf8Size(f.data) <= MAX_DATA_BYTES && num == frontier + 1)
  {
    var f := IncomingOf(s.conns[i].ws[0], redact, now);
    ReadReplies(s.world, i, f);
    ServerReads(s, i, redact, now);
  }

  lemma ReadReplies(w: Recording.World, c: nat, f: Recording.Incoming)
    requires Recording.WorldInv(w) && f.num >= 1 && c !in w.held
    ensures var (t, replies) := Recording.Act(w, Recording.ClassifyAction(c, f));
            var frontier := Recording.Frontier(w.rows, f.stream);
            && replies == (if f.num == frontier + 1 then []
                           else if f.num > frontier + 1 then [Recording.ResendReply(f.stream, frontier + 1)]
                           else if Recording.HasRow(w.rows, f.stream, f.num, Recording.PayloadHash(f.kind, f.data))
                           then [Recording.AckReply(f.stream, f.num)] else [Recording.FenceReply(f.stream, f.num)])
            && (c in t.held <==> f.num == frontier + 1)
  {
    Recording.ReadAnswered(w, c, f);
    Recording.FoundRow(w.rows, f.stream, f.num, Recording.PayloadHash(f.kind, f.data));
  }

  lemma ServerReads(s: Sys, i: nat, redact: bool, now: int)
    requires i < |s.conns| && s.conns[i].ws != [] && i !in s.world.held
    ensures var t := Step(s, ServerRead(i, redact, now)); var r := s.conns[i].ws[0];
            var (w, replies) := Recording.Act(s.world, Recording.ClassifyAction(i, IncomingOf(r, redact, now)));
            && |t.conns| == |s.conns| && t.conns[i].ws == s.conns[i].ws[1..] && t.sup == s.sup
            && t.world == (if Utf8Size(r.frame.data) > MAX_DATA_BYTES then s.world else w)
            && t.conns[i].down == s.conns[i].down
                 + (if Utf8Size(r.frame.data) > MAX_DATA_BYTES
                    then [Recording.ErrorReply(r.frame.sid, "data too large")] else replies)
  {
  }

  // The network may cut each queue of a connection anywhere, or the socket together with
  // all that is not yet on it.
  lemma LosesAnySuffix(s: Sys, i: nat, a: nat, b: nat, c: nat, d: nat)
    requires i < |s.conns|
    requires var q := s.conns[i]; a <= |q.ipc| && b <= |q.ws| && c <= |q.down| && d <= |q.up|
    ensures var q := s.conns[i]; var t := Step(s, Lose(i, a, b, c, d));
            && t == s.(conns := s.conns[i := t.conns[i]])
            && t.conns[i] == Conn(false, if b < |q.ws| then [] else q.ipc[..a], q.outstanding, q.ws[..b], q.down[..c], q.up[..d])
  {
  }

  // A supervisor that restarts keeps its spool and nothing of its window; connections,
  // server and history are not its own.
  lemma CrashKeepsSpool(s: Sys)
    ensures var t := Step(s, CrashSupervisor);
            && t.sup.spool == s.sup.spool && t.sup.inflight == [] && t.sup.controls == [] && t.sup.drain.Detached?
            && !t.hung && t.conns == s.conns && t.world == s.world && t.log == s.log
  {
  }

  // Controls go through the system like rows: queued behind the others, and gone once the
  // first of them is acknowledged in flight. A detached loop stands still and a woken one
  // goes on. A supervisor that hangs does none of this.
  lemma ControlsPass(s: Sys, agentId: string, id: nat)
    ensures s.hung ==>
              Step(s, EmitControl(agentId)) == s && Step(s, ControlAck(id)) == s && Step(s, Detach) == s
    ensures var t := Step(s, EmitControl(agentId)); var n := |s.sup.controls|;
            !s.hung ==> |t.sup.controls| == n + 1 && t.sup.controls[..n] == s.sup.controls
                        && t.sup.controls[n].agentId == agentId && t.sup.event && t.sup.spool == s.sup.spool
    ensures var t := Step(s, ControlAck(id));
            var first := s.sup.controls != [] && s.sup.controls[0].id == id;
            !s.hung && Sender.InFlight(s.sup.inflight, Sender.ControlId(id)) && first ==>
              t.sup.controls == s.sup.controls[1..] && t.sup.spool == s.sup.spool
    ensures !s.hung ==> Step(s, Detach).sup == s.sup.(drain := Sender.Detached)
    ensures !s.hung && s.sup.drain.Waiting? && s.sup.event ==> Step(s, Wake).sup == s.sup.(drain := Sender.AtTop)
  {
  }
}
