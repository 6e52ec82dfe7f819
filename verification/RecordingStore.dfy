// The RecordingStore object over its tables: validation of a wire frame, the
// two-phase persist, and the redaction loops, proved against module Recording.
module RecordingStores {
  import opened Common
  import opened Recording

  // A JSON member of a wire frame as far as validation distinguishes it.
  datatype Field = Absent | Text(text: string) | Number(n: int) | Flag(b: bool) | Other

  datatype WireFrame = WireFrame(sid: Field, pid: Field, num: Field, data: Field, kind: Option<string>)

  datatype SessionRow = SessionRow(agentId: string, retentionDays: Option<int>)

  function DataOf(f: WireFrame): string {
    if f.data.Text? then f.data.text else ""
  }

  function KindOf(f: WireFrame): string {
    if f.kind.None? || f.kind.value == "" then "o" else f.kind.value
  }

  predicate WellTyped(f: WireFrame) {
    && f.sid.Text? && f.sid.text != ""
    && f.pid.Text? && f.pid.text != ""
    && f.num.Number? && f.num.n >= 1
    && (f.data.Text? || f.data.Absent?)
  }

  // The query: numbers of a stream in ascending order.
  function InsertNum(sorted: seq<nat>, n: nat): seq<nat> {
    if sorted == [] || n <= sorted[0] then [n] + sorted
    else [sorted[0]] + InsertNum(sorted[1..], n)
  }

  function OrderedNums(rows: seq<Stored>, k: Stream): seq<nat> {
    if rows == [] then []
    else
      var rest := OrderedNums(rows[1..], k);
      if rows[0].stream == k then InsertNum(rest, rows[0].num) else rest
  }

  ghost predicate Ascending(s: seq<nat>) {
    forall i, j :: 0 <= i < j < |s| ==> s[i] <= s[j]
  }

  lemma {:induction false} InsertNumOrdered(sorted: seq<nat>, n: nat)
    requires Ascending(sorted)
    ensures Ascending(InsertNum(sorted, n))
    ensures forall x :: x in InsertNum(sorted, n) <==> x == n || x in sorted
  {
    if sorted != [] && n > sorted[0] {
      InsertNumOrdered(sorted[1..], n);
      var tail := InsertNum(sorted[1..], n);
      forall i | 0 <= i < |tail|
        ensures sorted[0] <= tail[i]
      {
        assert tail[i] in tail;
        assert tail[i] == n || tail[i] in sorted[1..];
      }
      assert forall x :: x in sorted <==> x == sorted[0] || x in sorted[1..];
    }
  }

  lemma {:induction false} OrderedNumsMeans(rows: seq<Stored>, k: Stream)
    ensures Ascending(OrderedNums(rows, k))
    ensures forall n :: n in OrderedNums(rows, k) <==> n in Nums(rows, k)
  {
    if rows != [] {
      OrderedNumsMeans(rows[1..], k);
      assert forall r :: r in rows <==> r == rows[0] || r in rows[1..];
      if rows[0].stream == k {
        InsertNumOrdered(OrderedNums(rows[1..], k), rows[0].num);
      }
    }
  }

  // One pass over the ascending numbers finds the contiguous frontier.
  method HighestContiguous(rows: seq<Stored>, k: Stream) returns (expected: nat)
    requires Positive(rows)
    ensures expected == Frontier(rows, k)
  {
    var nums := OrderedNums(rows, k);
    OrderedNumsMeans(rows, k);
    expected := 0;
    var i := 0;
    while i < |nums|
      invariant 0 <= i <= |nums|
      invariant forall n :: 1 <= n <= expected ==> n in nums
      invariant forall j :: 0 <= j < i ==> nums[j] <= expected
      decreases |nums| - i
    {
      if nums[i] == expected + 1 {
        expected := nums[i];
      } else if nums[i] > expected {
        break;
      }
      i := i + 1;
    }
    FrontierUnique(rows, k, expected);
  }

  datatype ErasureResult = ErasureResult(
    frameCount: nat,
    newlyRedacted: nat,
    alreadyRedacted: nat,
    checkpointsDeleted: nat)

  function CountErased(rows: seq<Stored>, sid: string): nat {
    if rows == [] then 0 else (if ErasesRow(rows[0], sid) then 1 else 0) + CountErased(rows[1..], sid)
  }

  function CountSession(rows: seq<Stored>, sid: string): nat {
    if rows == [] then 0 else (if rows[0].stream.sid == sid then 1 else 0) + CountSession(rows[1..], sid)
  }

  function CountExpired(rows: seq<Stored>, policies: map<string, Option<int>>, now: int): nat {
    if rows == [] then 0
    else (if ExpiresRow(rows[0], policies, now) then 1 else 0) + CountExpired(rows[1..], policies, now)
  }

  lemma {:induction false} ErasePosition(rows: seq<Stored>, i: nat, sid: string, now: int)
    requires i < |rows|
    ensures Erase(rows[..i + 1], sid, now)
         == Erase(rows[..i], sid, now) + [if ErasesRow(rows[i], sid) then Blank(rows[i], now) else rows[i]]
    ensures CountErased(rows[..i + 1], sid) == CountErased(rows[..i], sid) + (if ErasesRow(rows[i], sid) then 1 else 0)
    ensures CountSession(rows[..i + 1], sid)
         == CountSession(rows[..i], sid) + (if rows[i].stream.sid == sid then 1 else 0)
    decreases i
  {
    if i == 0 {
      assert rows[..1] == [rows[0]];
      assert Erase(rows[..1], sid, now) == [if ErasesRow(rows[0], sid) then Blank(rows[0], now) else rows[0]];
    } else {
      ErasePosition(rows[1..], i - 1, sid, now);
      assert rows[..i + 1][1..] == rows[1..][..i];
      assert rows[..i][1..] == rows[1..][..i - 1];
    }
  }

  lemma {:induction false} ExpirePosition(rows: seq<Stored>, i: nat, policies: map<string, Option<int>>, now: int)
    requires i < |rows|
    ensures Expire(rows[..i + 1], policies, now)
         == Expire(rows[..i], policies, now)
            + [if ExpiresRow(rows[i], policies, now) then Blank(rows[i], now) else rows[i]]
    ensures CountExpired(rows[..i + 1], policies, now)
         == CountExpired(rows[..i], policies, now) + (if ExpiresRow(rows[i], policies, now) then 1 else 0)
    decreases i
  {
    if i == 0 {
      assert rows[..1] == [rows[0]];
      assert Expire(rows[..1], policies, now)
          == [if ExpiresRow(rows[0], policies, now) then Blank(rows[0], now) else rows[0]];
    } else {
      ExpirePosition(rows[1..], i - 1, policies, now);
      assert rows[..i + 1][1..] == rows[1..][..i];
      assert rows[..i][1..] == rows[1..][..i - 1];
    }
  }

  // Some payload of the session has expired.
  ghost predicate LosesPayload(rows: seq<Stored>, policies: map<string, Option<int>>, now: int, sid: string) {
    exists i :: 0 <= i < |rows| && rows[i].stream.sid == sid && ExpiresRow(rows[i], policies, now)
  }

  lemma LosesPosition(rows: seq<Stored>, i: nat, policies: map<string, Option<int>>, now: int)
    requires i < |rows|
    ensures forall sid :: LosesPayload(rows[..i + 1], policies, now, sid)
                     <==> LosesPayload(rows[..i], policies, now, sid)
                          || (rows[i].stream.sid == sid && ExpiresRow(rows[i], policies, now))
  {
    var next := rows[..i + 1];
    assert next[i] == rows[i];
    forall sid
      ensures LosesPayload(next, policies, now, sid)
         <==> LosesPayload(rows[..i], policies, now, sid)
              || (rows[i].stream.sid == sid && ExpiresRow(rows[i], policies, now))
    {
      if LosesPayload(rows[..i], policies, now, sid) {
        var j :| 0 <= j < i && rows[..i][j].stream.sid == sid && ExpiresRow(rows[..i][j], policies, now);
        assert next[j] == rows[j];
      }
      if LosesPayload(next, policies, now, sid) {
        var j :| 0 <= j < |next| && next[j].stream.sid == sid && ExpiresRow(next[j], policies, now);
        assert j < i ==> rows[..i][j] == next[j];
      }
    }
  }

  lemma OneMore(more: set<int>, less: set<int>, i: int, there: bool)
    requires i !in less && more == if there then less + {i} else less
    ensures |more| == |less| + if there then 1 else 0
  {
  }

  // The counts are the numbers of rows concerned.
  lemma {:induction false} CountsSession(rows: seq<Stored>, n: nat, sid: string)
    requires n <= |rows|
    ensures CountSession(rows[..n], sid) == |set i | 0 <= i < n && rows[i].stream.sid == sid|
    decreases n
  {
    if n > 0 {
      CountsSession(rows, n - 1, sid);
      ErasePosition(rows, n - 1, sid, 0);
      var mine := set i | 0 <= i < n && rows[i].stream.sid == sid;
      var less := set i | 0 <= i < n - 1 && rows[i].stream.sid == sid;
      OneMore(mine, less, n - 1, rows[n - 1].stream.sid == sid);
    }
  }

  lemma {:induction false} CountsErased(rows: seq<Stored>, n: nat, sid: string)
    requires n <= |rows|
    ensures CountErased(rows[..n], sid) == |set i | 0 <= i < n && rows[i].stream.sid == sid && rows[i].redactedAt.None?|
    decreases n
  {
    if n > 0 {
      CountsErased(rows, n - 1, sid);
      ErasePosition(rows, n - 1, sid, 0);
      var lost := set i | 0 <= i < n && rows[i].stream.sid == sid && rows[i].redactedAt.None?;
      var less := set i | 0 <= i < n - 1 && rows[i].stream.sid == sid && rows[i].redactedAt.None?;
      OneMore(lost, less, n - 1, rows[n - 1].stream.sid == sid && rows[n - 1].redactedAt.None?);
    }
  }

  lemma {:induction false} CountsExpired(rows: seq<Stored>, n: nat, policies: map<string, Option<int>>, now: int)
    requires n <= |rows|
    ensures CountExpired(rows[..n], policies, now)
         == |set i | 0 <= i < n && rows[i].redactedAt.None? && PastPolicy(rows[i], policies, now)|
    decreases n
  {
    if n > 0 {
      CountsExpired(rows, n - 1, policies, now);
      ExpirePosition(rows, n - 1, policies, now);
      var lost := set i | 0 <= i < n && rows[i].redactedAt.None? && PastPolicy(rows[i], policies, now);
      var less := set i | 0 <= i < n - 1 && rows[i].redactedAt.None? && PastPolicy(rows[i], policies, now);
      OneMore(lost, less, n - 1, rows[n - 1].redactedAt.None? && PastPolicy(rows[n - 1], policies, now));
    }
  }

  // The rows concerned are those whose mark changes.
  lemma ErasedRows(rows: seq<Stored>, after: seq<Stored>, sid: string, now: int)
    requires after == Erase(rows, sid, now) && |after| == |rows|
    ensures (set i | 0 <= i < |rows| && rows[i].stream.sid == sid && rows[i].redactedAt.None?)
         == (set i | 0 <= i < |rows| && after[i].redactedAt != rows[i].redactedAt)
    ensures (set i | 0 <= i < |rows| && rows[i].stream.sid == sid) == (set i | 0 <= i < |rows| && after[i].stream.sid == sid)
  {
    EraseSameLedger(rows, sid, now);
  }

  lemma ExpiredRows(rows: seq<Stored>, after: seq<Stored>, policies: map<string, Option<int>>, now: int)
    requires after == Expire(rows, policies, now) && |after| == |rows|
    ensures (set i | 0 <= i < |rows| && rows[i].redactedAt.None? && PastPolicy(rows[i], policies, now))
         == (set i | 0 <= i < |rows| && after[i].redactedAt != rows[i].redactedAt)
    ensures forall sid :: LosesPayload(rows, policies, now, sid)
                     <==> exists i :: 0 <= i < |rows| && after[i].stream.sid == sid && after[i].redactedAt != rows[i].redactedAt
  {
    ExpireSameLedger(rows, policies, now);
    forall sid
      ensures LosesPayload(rows, policies, now, sid)
         <==> exists i :: 0 <= i < |rows| && after[i].stream.sid == sid && after[i].redactedAt != rows[i].redactedAt
    {
      if LosesPayload(rows, policies, now, sid) {
        var i :| 0 <= i < |rows| && rows[i].stream.sid == sid && ExpiresRow(rows[i], policies, now);
        assert after[i].stream.sid == sid && after[i].redactedAt != rows[i].redactedAt;
      }
    }
  }

  class RecordingStore {
    const maxDataBytes: nat

    var rows: seq<Stored>
    var checkpoints: seq<string>             // the session of each stored snapshot
    var sessions: map<string, SessionRow>
    var agents: map<string, string>          // agent to its devbox

    constructor (maxDataBytes: nat, sessions: map<string, SessionRow>, agents: map<string, string>)
      ensures LedgerInv(rows) && rows == []
      ensures this.maxDataBytes == maxDataBytes && this.sessions == sessions && this.agents == agents
    {
      this.maxDataBytes := maxDataBytes;
      this.sessions, this.agents := sessions, agents;
      rows, checkpoints := [], [];
    }

    // The session is known and its agent belongs to this devbox.
    predicate Owned(devbox: string, sid: string)
      reads this
    {
      sid in sessions && sessions[sid].agentId in agents && agents[sessions[sid].agentId] == devbox
    }

    // The reason a frame is refused before it is classified, checked in this order.
    function Refusal(devbox: string, f: WireFrame): (r: Option<Reason>)
      reads this
      ensures r.None? ==> WellTyped(f) && f.sid.text in sessions
      ensures r == Some(UnknownSession) <==>
                WellTyped(f) && Utf8Size(DataOf(f)) <= maxDataBytes && f.sid.text !in sessions
      ensures r != Some(BelowFrontier)
      ensures r.None? <==> WellTyped(f) && Utf8Size(DataOf(f)) <= maxDataBytes && f.sid.text in sessions
                           && sessions[f.sid.text].agentId in agents && agents[sessions[f.sid.text].agentId] == devbox
      ensures WellTyped(f) && Owned(devbox, f.sid.text) ==>
                (r.None? <==> Utf8Size(DataOf(f)) <= maxDataBytes)
    {
      if !f.sid.Text? || f.sid.text == "" then Some(OtherReason("empty session_id"))
      else if !f.pid.Text? || f.pid.text == "" then Some(OtherReason("empty pty_instance_id"))
      else if !f.num.Number? || f.num.n < 1 then Some(OtherReason("seq must be a positive integer"))
      else if !f.data.Text? && !f.data.Absent? then Some(OtherReason("data must be a string"))
      else if Utf8Size(DataOf(f)) > maxDataBytes then Some(OtherReason("data too large"))
      else if f.sid.text !in sessions then Some(UnknownSession)
      else if sessions[f.sid.text].agentId !in agents then Some(OtherReason("session has no agent"))
      else if agents[sessions[f.sid.text].agentId] != devbox
      then Some(OtherReason("session not owned by authenticated devbox"))
      else None
    }

    // What an accepted frame is recorded as.
    function Accepted(f: WireFrame, now: int): Incoming
      requires WellTyped(f) && f.sid.text in sessions
      reads this
    {
      Incoming(Stream(f.sid.text, f.pid.text), f.num.n, KindOf(f), DataOf(f),
               sessions[f.sid.text].retentionDays == Some(0), now)
    }

    method ClassifyOutput(devbox: string, f: WireFrame, expectedSid: Option<string>, now: int) returns (v: Verdict)
      requires LedgerInv(rows)
      ensures Refusal(devbox, f).Some? ==> v == Invalid(Refusal(devbox, f).value)
      ensures Refusal(devbox, f).None? ==>
                v == if expectedSid.Some? && expectedSid.value != f.sid.text
                     then Invalid(OtherReason("session_id mismatch"))
                     else Classify(rows, Accepted(f, now))
      ensures v.New? ==>
                && WellTyped(f) && f.sid.text in sessions && f.num.n == v.expected == Frontier(rows, v.row.stream) + 1
                && v.row.stream == Stream(f.sid.text, f.pid.text) && v.row.num == f.num.n
                && v.row.hash == PayloadHash(KindOf(f), DataOf(f))
                && v.row.data == (if sessions[f.sid.text].retentionDays == Some(0) then "" else DataOf(f))
                && (v.row.redactedAt.Some? <==> sessions[f.sid.text].retentionDays == Some(0))
    {
      var refusal := Refusal(devbox, f);
      if refusal.Some? {
        return Invalid(refusal.value);
      }
      if expectedSid.Some? && f.sid.text != expectedSid.value {
        return Invalid(OtherReason("session_id mismatch"));
      }
      var frame := Accepted(f, now);
      var existing := FindRow(rows, frame.stream, frame.num);
      if existing.Some? {
        return if existing.value.hash == PayloadHash(frame.kind, frame.data)
               then Duplicate(existing.value) else Conflict;
      }
      var highest := HighestContiguous(rows, frame.stream);
      var expected := highest + 1;
      if frame.num > expected {
        return Gap(expected);
      }
      if frame.num < expected {
        return Invalid(BelowFrontier);
      }
      v := New(NewRow(frame), expected);
    }

    // The acknowledgement boundary. A lost race is reclassified from the winner's row.
    method CommitNew(row: Stored, expected: nat, violation: bool) returns (v: Verdict)
      requires LedgerInv(rows)
      requires 1 <= row.num <= Frontier(rows, row.stream) + 1
      modifies this`rows
      ensures LedgerInv(rows)
      ensures rows == CommitRows(old(rows), row, violation)
      ensures v == CommitVerdict(old(rows), row, expected, violation)
      ensures v.Committed() ==>
                exists r :: r in rows && r.stream == row.stream && r.num == row.num && r.hash == row.hash
    {
      CommitGrows(rows, row, violation);
      if CommitVerdict(rows, row, expected, violation).Committed() {
        CommitBacked(rows, row, expected, violation);
      }
      var other := FindRow(rows, row.stream, row.num);
      if other.None? && !violation {
        rows := rows + [row];
        return New(row, expected);
      }
      if other.Some? && other.value.hash == row.hash {
        return Duplicate(other.value);
      }
      if other.Some? {
        return Conflict;
      }
      v := Gap(expected);
    }

    // Both phases without anything in between.
    method PersistOutput(devbox: string, f: WireFrame, now: int) returns (v: Verdict)
      requires LedgerInv(rows)
      modifies this`rows
      ensures LedgerInv(rows)
      ensures v.Committed() ==>
                && WellTyped(f)
                && exists r :: r in rows && r.stream == Stream(f.sid.text, f.pid.text) && r.num == f.num.n
                            && r.hash == PayloadHash(KindOf(f), DataOf(f))
      ensures !v.New? ==> rows == old(rows)
      ensures v.New? ==> rows == old(rows) + [v.row]
      ensures v.New? ==> f.sid.text in sessions
                         && v.row.data == if sessions[f.sid.text].retentionDays == Some(0) then "" else DataOf(f)
    {
      v := ClassifyOutput(devbox, f, None, now);
      if Refusal(devbox, f).None? {
        ClassifyExact(rows, Accepted(f, now));
      }
      if v.New? {
        v := CommitNew(v.row, v.expected, false);
      }
    }

    // What a connection is told about a frame, with nothing in between: the frame is
    // acknowledged only with its own payload stored, told apart from another payload under
    // its number, or asked back from the frontier on; a refused one is fenced off if its
    // session is unknown and ends the connection otherwise.
    method Answer(devbox: string, f: WireFrame, now: int) returns (reply: Reply)
      requires LedgerInv(rows)
      modifies this`rows
      ensures LedgerInv(rows)
      ensures Refusal(devbox, f).Some? ==>
                && rows == old(rows)
                && (Refusal(devbox, f) == Some(UnknownSession) ==>
                      f.sid.Text? && f.pid.Text? && f.num.Number? && f.num.n >= 1
                      && reply == FenceReply(Stream(f.sid.text, f.pid.text), f.num.n))
                && (Refusal(devbox, f) != Some(UnknownSession) ==>
                      reply.ErrorReply? && Refusal(devbox, f) == Some(OtherReason(reply.message)))
      ensures Refusal(devbox, f).None? ==>
                && f.sid.Text? && f.pid.Text? && f.num.Number? && f.num.n >= 1
                && var k := Stream(f.sid.text, f.pid.text); var hash := PayloadHash(KindOf(f), DataOf(f));
                   var frontier := Frontier(old(rows), k);
                   && (reply == AckReply(k, f.num.n) <==> HasRow(rows, k, f.num.n, hash))
                   && (reply == FenceReply(k, f.num.n) <==> HasOther(old(rows), k, f.num.n, hash))
                   && (reply == ResendReply(k, frontier + 1) <==> f.num.n > frontier + 1)
                   && (rows != old(rows) <==> f.num.n == frontier + 1)
                   && (rows == old(rows) || (|rows| == |old(rows)| + 1 && rows[..|old(rows)|] == old(rows)))
    {
      var k := Stream(if f.sid.Text? then f.sid.text else "", if f.pid.Text? then f.pid.text else "");
      var num: nat := if f.num.Number? && f.num.n >= 0 then f.num.n else 0;
      var v := ClassifyOutput(devbox, f, None, now);
      if Refusal(devbox, f).None? {
        FoundRow(rows, k, num, PayloadHash(KindOf(f), DataOf(f)));
        ClassifyExact(rows, Accepted(f, now));
      }
      if v.New? {
        CommitGrows(rows, v.row, false);
        v := CommitNew(v.row, v.expected, false);
        FoundRow(rows, k, num, PayloadHash(KindOf(f), DataOf(f)));
      }
      reply := Response(v, k, num);
    }

    method SecureErase(sid: string, now: int) returns (r: ErasureResult)
      modifies this`rows, this`checkpoints
      ensures rows == Erase(old(rows), sid, now)
      ensures |rows| == |old(rows)| && forall i :: 0 <= i < |rows| ==>
                rows[i] == if old(rows)[i].stream.sid == sid && old(rows)[i].redactedAt.None?
                           then old(rows)[i].(data := "", redactedAt := Some(now)) else old(rows)[i]
      ensures r.frameCount == |set i | 0 <= i < |rows| && rows[i].stream.sid == sid|
      ensures r.newlyRedacted == |set i | 0 <= i < |rows| && rows[i].redactedAt != old(rows)[i].redactedAt|
      ensures r.frameCount == r.newlyRedacted + r.alreadyRedacted == CountSession(old(rows), sid)
      ensures r.newlyRedacted == CountErased(old(rows), sid)
      ensures sid !in checkpoints
      ensures multiset(checkpoints) == multiset(old(checkpoints))[sid := 0]
      ensures r.checkpointsDeleted == multiset(old(checkpoints))[sid]
    {
      var before := rows;
      var after := [];
      var fresh', already := 0, 0;
      for i := 0 to |before|
        invariant unchanged(this)
        invariant after == Erase(before[..i], sid, now)
        invariant fresh' == CountErased(before[..i], sid)
        invariant fresh' + already == CountSession(before[..i], sid)
      {
        ErasePosition(before, i, sid, now);
        var row := before[i];
        if row.stream.sid == sid {
          if row.redactedAt.Some? {
            already := already + 1;
          } else {
            row := row.(data := "", redactedAt := Some(now));
            fresh' := fresh' + 1;
          }
        }
        after := after + [row];
      }
      assert before[..|before|] == before;
      EraseSameLedger(before, sid, now);
      CountsSession(before, |before|, sid);
      CountsErased(before, |before|, sid);
      ErasedRows(before, after, sid, now);
      var kept, deleted := DropCheckpoints(checkpoints, {sid});
      rows := after;
      checkpoints := kept;
      r := ErasureResult(fresh' + already, fresh', already, deleted);
    }

    // Enforces every session's policy; snapshots of a session that lost a payload go.
    method RedactExpired(now: int) returns (redacted: nat)
      modifies this`rows, this`checkpoints
      ensures rows == Expire(old(rows), Policies(), now)
      ensures |rows| == |old(rows)| && forall i :: 0 <= i < |rows| ==>
                var r := old(rows)[i];
                rows[i] == if r.redactedAt.None? && r.stream.sid in sessions && sessions[r.stream.sid].retentionDays.Some?
                              && (var days := sessions[r.stream.sid].retentionDays.value;
                                  if days > 0 then r.createdAt + days * SECONDS_PER_DAY <= now else days == 0 || r.createdAt <= now)
                           then r.(data := "", redactedAt := Some(now)) else r
      ensures redacted == |set i | 0 <= i < |rows| && rows[i].redactedAt != old(rows)[i].redactedAt|
      ensures forall sid :: multiset(checkpoints)[sid]
                         == if exists i :: 0 <= i < |rows| && rows[i].stream.sid == sid
                                           && rows[i].redactedAt != old(rows)[i].redactedAt
                            then 0 else multiset(old(checkpoints))[sid]
      ensures redacted == CountExpired(old(rows), Policies(), now)
      ensures forall sid :: multiset(checkpoints)[sid]
                         == if LosesPayload(old(rows), Policies(), now, sid) then 0 else multiset(old(checkpoints))[sid]
    {
      var policies := Policies();
      var before := rows;
      var after, touched := [], {};
      redacted := 0;
      for i := 0 to |before|
        invariant unchanged(this)
        invariant after == Expire(before[..i], policies, now)
        invariant redacted == CountExpired(before[..i], policies, now)
        invariant forall sid :: sid in touched <==> LosesPayload(before[..i], policies, now, sid)
      {
        ExpirePosition(before, i, policies, now);
        LosesPosition(before, i, policies, now);
        var row := before[i];
        if row.redactedAt.None? && row.stream.sid in policies && policies[row.stream.sid].Some? {
          var days := policies[row.stream.sid].value;
          var cutoff := if days > 0 then now - days * SECONDS_PER_DAY else now;
          if days == 0 || row.createdAt <= cutoff {
            touched := touched + {row.stream.sid};
            row := row.(data := "", redactedAt := Some(now));
            redacted := redacted + 1;
          }
        }
        after := after + [row];
      }
      assert before[..|before|] == before;
      ExpireSameLedger(before, policies, now);
      CountsExpired(before, |before|, policies, now);
      ExpiredRows(before, after, policies, now);
      var kept, _ := DropCheckpoints(checkpoints, touched);
      rows := after;
      checkpoints := kept;
    }

    function Policies(): map<string, Option<int>>
      reads this
    {
      map sid | sid in sessions :: sessions[sid].retentionDays
    }
  }

  method DropCheckpoints(checkpoints: seq<string>, sids: set<string>) returns (kept: seq<string>, deleted: nat)
    ensures forall s :: multiset(kept)[s] == if s in sids then 0 else multiset(checkpoints)[s]
    ensures forall s :: s in sids ==> s !in kept
    ensures deleted == |checkpoints| - |kept|
    ensures forall sid :: sids == {sid} ==> deleted == multiset(checkpoints)[sid]
  {
    kept, deleted := [], 0;
    for i := 0 to |checkpoints|
      invariant forall s :: multiset(kept)[s] == if s in sids then 0 else multiset(checkpoints[..i])[s]
      invariant forall s :: s in sids ==> s !in kept
      invariant deleted == i - |kept|
      invariant forall sid :: sids == {sid} ==> deleted == multiset(checkpoints[..i])[sid]
    {
      assert checkpoints[..i + 1] == checkpoints[..i] + [checkpoints[i]];
      if checkpoints[i] in sids {
        deleted := deleted + 1;
      } else {
        kept := kept + [checkpoints[i]];
      }
    }
    assert checkpoints[..|checkpoints|] == checkpoints;
  }
}
