// The server's durable frame ledger: what a frame is classified as, what a commit
// does, what is answered, and what redaction changes.
module Recording {
  import opened Common

  // A row of recording_frame. `hash` stands for the SHA-256 digest: the digest is
  // taken to be injective, so the hashed bytes themselves are kept.
  datatype Stored = Stored(
    stream: Stream,
    num: nat,
    kind: string,
    data: string,
    hash: string,
    createdAt: int,
    redactedAt: Option<int>)

  function PayloadHash(kind: string, data: string): string {
    (if kind == "" then "o" else kind) + ['\0'] + data
  }

  datatype Reason = UnknownSession | BelowFrontier | OtherReason(text: string)

  datatype Verdict =
    | New(row: Stored, expected: nat)
    | Duplicate(row: Stored)
    | Gap(expected: nat)
    | Conflict
    | Invalid(reason: Reason)
  {
    // The flag that permits an acknowledgement.
    predicate Committed() {
      New? || Duplicate?
    }
  }

  datatype Reply =
    | AckReply(stream: Stream, num: nat)
    | ResendReply(stream: Stream, expected: nat)
    | FenceReply(stream: Stream, num: nat)
    | ErrorReply(sid: string, message: string)

  // The only mapping from verdicts to what the connector is told.
  function Response(v: Verdict, k: Stream, num: nat): (r: Reply)
    ensures r.AckReply? <==> v.Committed()
    ensures r.ResendReply? <==> v.Gap?
    ensures r.FenceReply? <==> v.Conflict? || (v.Invalid? && !v.reason.OtherReason?)
    ensures !r.ErrorReply? ==> r.stream == k && (if r.ResendReply? then r.expected == v.expected else r.num == num)
    ensures r.ErrorReply? ==> r.sid == k.sid && v == Invalid(OtherReason(r.message))
  {
    match v
    case New(_, _) => AckReply(k, num)
    case Duplicate(_) => AckReply(k, num)
    case Gap(expected) => ResendReply(k, expected)
    case Conflict => FenceReply(k, num)
    case Invalid(UnknownSession) => FenceReply(k, num)
    case Invalid(BelowFrontier) => FenceReply(k, num)
    case Invalid(OtherReason(text)) => ErrorReply(k.sid, text)
  }

  // ---- Queries ---------------------------------------------------------------

  function FindRow(rows: seq<Stored>, k: Stream, num: nat): Option<Stored> {
    if rows == [] then None
    else if rows[0].stream == k && rows[0].num == num then Some(rows[0])
    else FindRow(rows[1..], k, num)
  }

  function Nums(rows: seq<Stored>, k: Stream): set<nat> {
    set r | r in rows && r.stream == k :: r.num
  }

  // The highest S such that from+1..S are all present.
  function FrontierFrom(nums: set<nat>, from: nat): nat
    decreases nums
  {
    if from + 1 in nums then FrontierFrom(nums - {from + 1}, from + 1) else from
  }

  function Frontier(rows: seq<Stored>, k: Stream): nat {
    FrontierFrom(Nums(rows, k), 0)
  }

  // ---- Classification and commit ------------------------------------------------

  // A frame that passed validation. `redact` is set under retention "none".
  datatype Incoming = Incoming(stream: Stream, num: nat, kind: string, data: string, redact: bool, now: int)

  function NewRow(f: Incoming): Stored {
    Stored(f.stream, f.num, f.kind, if f.redact then "" else f.data, PayloadHash(f.kind, f.data), f.now,
           if f.redact then Some(f.now) else None)
  }

  function Classify(rows: seq<Stored>, f: Incoming): Verdict {
    var existing := FindRow(rows, f.stream, f.num);
    if existing.Some? then
      if existing.value.hash == PayloadHash(f.kind, f.data) then Duplicate(existing.value) else Conflict
    else
      var expected := Frontier(rows, f.stream) + 1;
      if f.num > expected then Gap(expected)
      else if f.num < expected then Invalid(BelowFrontier)
      else New(NewRow(f), expected)
  }

  // `violation` is an integrity error other than a duplicate key.
  function CommitVerdict(rows: seq<Stored>, row: Stored, expected: nat, violation: bool): Verdict {
    var other := FindRow(rows, row.stream, row.num);
    if other.None? && !violation then New(row, expected)
    else if other.Some? && other.value.hash == row.hash then Duplicate(other.value)
    else if other.Some? then Conflict
    else Gap(expected)
  }

  function CommitRows(rows: seq<Stored>, row: Stored, violation: bool): seq<Stored> {
    if FindRow(rows, row.stream, row.num).None? && !violation then rows + [row] else rows
  }

  // ---- What the queries mean ------------------------------------------------------

  lemma {:induction false} FindRowMeans(rows: seq<Stored>, k: Stream, num: nat)
    ensures FindRow(rows, k, num).Some? <==> num in Nums(rows, k)
    ensures FindRow(rows, k, num).Some? ==>
              var r := FindRow(rows, k, num).value;
              r in rows && r.stream == k && r.num == num
  {
    if rows != [] {
      FindRowMeans(rows[1..], k, num);
      assert forall r :: r in rows <==> r == rows[0] || r in rows[1..];
    }
  }

  // Everything up to the frontier is there, and the next number is not.
  lemma {:induction false} FrontierFromMeans(nums: set<nat>, from: nat)
    requires forall n :: n in nums ==> n > from
    ensures FrontierFrom(nums, from) >= from
    ensures forall n :: from < n <= FrontierFrom(nums, from) ==> n in nums
    ensures FrontierFrom(nums, from) + 1 !in nums
    decreases nums
  {
    if from + 1 in nums {
      FrontierFromMeans(nums - {from + 1}, from + 1);
    }
  }

  ghost predicate Positive(rows: seq<Stored>) {
    forall r :: r in rows ==> r.num >= 1
  }

  lemma FrontierMeans(rows: seq<Stored>, k: Stream)
    requires Positive(rows)
    ensures forall n :: 1 <= n <= Frontier(rows, k) ==> n in Nums(rows, k)
    ensures Frontier(rows, k) + 1 !in Nums(rows, k)
  {
    FrontierFromMeans(Nums(rows, k), 0);
  }

  // The two facts determine the frontier.
  lemma FrontierUnique(rows: seq<Stored>, k: Stream, f: nat)
    requires Positive(rows)
    requires forall n :: 1 <= n <= f ==> n in Nums(rows, k)
    requires f + 1 !in Nums(rows, k)
    ensures Frontier(rows, k) == f
  {
    FrontierMeans(rows, k);
    assert Frontier(rows, k) + 1 <= f ==> Frontier(rows, k) + 1 in Nums(rows, k);
  }

  lemma NumsAppend(rows: seq<Stored>, row: Stored, k: Stream)
    ensures Nums(rows + [row], k) == Nums(rows, k) + (if row.stream == k then {row.num} else {})
  {
    var all := rows + [row];
    forall n | n in Nums(rows, k)
      ensures n in Nums(all, k)
    {
      var r :| r in rows && r.stream == k && r.num == n;
      assert r in all;
    }
    if row.stream == k {
      assert row in all;
    }
    forall n | n in Nums(all, k)
      ensures n in Nums(rows, k) || (row.stream == k && n == row.num)
    {
      var r :| r in all && r.stream == k && r.num == n;
      assert r in rows || r == row;
    }
  }

  // ---- The ledger invariant ---------------------------------------------------------

  // Stored numbers of every stream are exactly 1..frontier, each once.
  ghost predicate LedgerInv(rows: seq<Stored>) {
    && Positive(rows)
    && (forall i, j :: 0 <= i < j < |rows| ==> rows[i].stream != rows[j].stream || rows[i].num != rows[j].num)
    && (forall r :: r in rows ==> r.num <= Frontier(rows, r.stream))
  }

  ghost predicate Exactly(nums: set<nat>, f: nat) {
    forall n :: n in nums <==> 1 <= n <= f
  }

  lemma LedgerExact(rows: seq<Stored>, k: Stream)
    requires LedgerInv(rows)
    ensures Exactly(Nums(rows, k), Frontier(rows, k))
  {
    FrontierMeans(rows, k);
  }

  // A commit extends one stream by one number, or changes nothing.
  lemma CommitGrows(rows: seq<Stored>, row: Stored, violation: bool)
    requires LedgerInv(rows)
    requires 1 <= row.num <= Frontier(rows, row.stream) + 1
    ensures LedgerInv(CommitRows(rows, row, violation))
    ensures forall k :: Frontier(CommitRows(rows, row, violation), k)
                     == Frontier(rows, k)
                        + if k == row.stream && row.num == Frontier(rows, k) + 1 && !violation then 1 else 0
  {
    FindRowMeans(rows, row.stream, row.num);
    FrontierMeans(rows, row.stream);
    if FindRow(rows, row.stream, row.num).None? && !violation {
      AppendGrows(rows, row);
    }
  }

  // The next number of a stream that is not there yet.
  lemma AppendGrows(rows: seq<Stored>, row: Stored)
    requires LedgerInv(rows)
    requires row.num == Frontier(rows, row.stream) + 1
    ensures LedgerInv(rows + [row])
    ensures forall k :: Frontier(rows + [row], k) == Frontier(rows, k) + if k == row.stream then 1 else 0
  {
    var after := rows + [row];
    assert Positive(after);
    forall k
      ensures Frontier(after, k) == Frontier(rows, k) + if k == row.stream then 1 else 0
    {
      FrontierGrows(rows, row, k);
    }
    LedgerExact(rows, row.stream);
    forall i, j | 0 <= i < j < |after|
      ensures after[i].stream != after[j].stream || after[i].num != after[j].num
    {
      if j == |rows| {
        assert after[i] in rows;
        assert after[i].stream == row.stream ==> after[i].num in Nums(rows, row.stream);
      }
    }
  }

  lemma FrontierGrows(rows: seq<Stored>, row: Stored, k: Stream)
    requires LedgerInv(rows) && row.num == Frontier(rows, row.stream) + 1
    ensures Frontier(rows + [row], k) == Frontier(rows, k) + if k == row.stream then 1 else 0
  {
    assert Positive(rows + [row]);
    NumsAppend(rows, row, k);
    LedgerExact(rows, k);
    FrontierUnique(rows + [row], k, Frontier(rows, k) + if k == row.stream then 1 else 0);
  }

  // A result that permits an acknowledgement after a commit is backed by a stored
  // row of that stream, number and payload hash.
  lemma CommitBacked(rows: seq<Stored>, row: Stored, expected: nat, violation: bool)
    requires CommitVerdict(rows, row, expected, violation).Committed()
    ensures var after := CommitRows(rows, row, violation);
            exists r :: r in after && r.stream == row.stream && r.num == row.num && r.hash == row.hash
  {
    FindRowMeans(rows, row.stream, row.num);
    var after := CommitRows(rows, row, violation);
    if FindRow(rows, row.stream, row.num).Some? {
      assert FindRow(rows, row.stream, row.num).value in after;
    } else {
      assert after[|rows|] == row;
    }
  }

  // Classification alone already sets the flag, with nothing stored.
  lemma ClassifiedIsNotCommitted(f: Incoming)
    requires f.num == 1
    ensures Classify([], f).Committed()
    ensures FindRow([], f.stream, f.num).None?
  {
    assert Nums([], f.stream) == {};
  }

  // With exact ledgers the branch below the frontier is unreachable: the verdict
  // is decided by comparing with the frontier and, below it, with the stored hash.
  lemma ClassifyExact(rows: seq<Stored>, f: Incoming)
    requires LedgerInv(rows) && f.num >= 1
    ensures var v := Classify(rows, f); var frontier := Frontier(rows, f.stream);
            && !v.Invalid?
            && (v.New? <==> f.num == frontier + 1)
            && (v.Gap? <==> f.num > frontier + 1)
            && (v.Duplicate? || v.Conflict? <==> f.num <= frontier)
            && (v.Gap? ==> v.expected == frontier + 1)
            && (v.Duplicate? ==> exists r :: r in rows && r.stream == f.stream && r.num == f.num
                                             && r.hash == PayloadHash(f.kind, f.data))
            && (v.Conflict? ==> exists r :: r in rows && r.stream == f.stream && r.num == f.num
                                            && r.hash != PayloadHash(f.kind, f.data))
  {
    FindRowMeans(rows, f.stream, f.num);
    LedgerExact(rows, f.stream);
  }

  // ---- Connections interleaved ---------------------------------------------------------

  // A connection between its classify and its commit holds a row and the expected
  // number it saw.
  datatype Held = Held(row: Stored, expected: nat)

  datatype World = World(rows: seq<Stored>, held: map<nat, Held>)

  datatype Action =
    | ClassifyAction(conn: nat, frame: Incoming)
    | CommitAction(conn: nat, violation: bool)
    | EraseAction(sid: string, now: int)
    | ExpireAction(policies: map<string, Option<int>>, now: int)

  // ---- Redaction -------------------------------------------------------------------------

  function Blank(r: Stored, now: int): Stored {
    r.(data := "", redactedAt := Some(now))
  }

  predicate ErasesRow(r: Stored, sid: string) {
    r.stream.sid == sid && r.redactedAt.None?
  }

  function Erase(rows: seq<Stored>, sid: string, now: int): seq<Stored> {
    if rows == [] then []
    else [if ErasesRow(rows[0], sid) then Blank(rows[0], now) else rows[0]] + Erase(rows[1..], sid, now)
  }

  const SECONDS_PER_DAY := 86400

  // Days of retention per session; None keeps for ever, 0 keeps nothing.
  predicate ExpiresRow(r: Stored, policies: map<string, Option<int>>, now: int) {
    && r.redactedAt.None?
    && r.stream.sid in policies
    && policies[r.stream.sid].Some?
    && var days := policies[r.stream.sid].value;
       days == 0 || r.createdAt <= (if days > 0 then now - days * SECONDS_PER_DAY else now)
  }

  function Expire(rows: seq<Stored>, policies: map<string, Option<int>>, now: int): seq<Stored> {
    if rows == [] then []
    else [if ExpiresRow(rows[0], policies, now) then Blank(rows[0], now) else rows[0]]
         + Expire(rows[1..], policies, now)
  }

  function Act(w: World, a: Action): (World, seq<Reply>) {
    match a
    case ClassifyAction(conn, f) =>
      (match Classify(w.rows, f)
       case New(row, expected) => (w.(held := w.held[conn := Held(row, expected)]), [])
       case v => (w, [Response(v, f.stream, f.num)]))
    case CommitAction(conn, violation) =>
      if conn !in w.held then (w, [])
      else
        var h := w.held[conn];
        (World(CommitRows(w.rows, h.row, violation), w.held - {conn}),
         [Response(CommitVerdict(w.rows, h.row, h.expected, violation), h.row.stream, h.row.num)])
    case EraseAction(sid, now) => (w.(rows := Erase(w.rows, sid, now)), [])
    case ExpireAction(policies, now) => (w.(rows := Expire(w.rows, policies, now)), [])
  }

  function ActAll(w: World, actions: seq<Action>): (World, seq<Reply>)
    decreases |actions|
  {
    if actions == [] then (w, [])
    else
      var first := Act(w, actions[0]);
      var rest := ActAll(first.0, actions[1..]);
      (rest.0, first.1 + rest.1)
  }

  // Two tables with the same identities and hashes, whatever their payloads.
  ghost predicate SameLedger(a: seq<Stored>, b: seq<Stored>) {
    && |a| == |b|
    && forall i :: 0 <= i < |a| ==>
         a[i].stream == b[i].stream && a[i].num == b[i].num && a[i].hash == b[i].hash
  }

  lemma SameLedgerNums(a: seq<Stored>, b: seq<Stored>, k: Stream)
    requires SameLedger(a, b)
    ensures Nums(a, k) == Nums(b, k)
  {
    forall n | n in Nums(a, k)
      ensures n in Nums(b, k)
    {
      var i :| 0 <= i < |a| && a[i].stream == k && a[i].num == n;
      assert b[i] in b;
    }
    forall n | n in Nums(b, k)
      ensures n in Nums(a, k)
    {
      var i :| 0 <= i < |b| && b[i].stream == k && b[i].num == n;
      assert a[i] in a;
    }
  }

  lemma {:induction false} SameLedgerFind(a: seq<Stored>, b: seq<Stored>, k: Stream, num: nat)
    requires SameLedger(a, b)
    ensures FindRow(a, k, num).Some? <==> FindRow(b, k, num).Some?
    ensures FindRow(a, k, num).Some? ==> FindRow(a, k, num).value.hash == FindRow(b, k, num).value.hash
  {
    if a != [] {
      assert forall i :: 0 <= i < |a| - 1 ==> a[1..][i] == a[i + 1] && b[1..][i] == b[i + 1];
      SameLedgerFind(a[1..], b[1..], k, num);
    }
  }

  lemma SameLedgerInv(a: seq<Stored>, b: seq<Stored>)
    requires SameLedger(a, b) && LedgerInv(a)
    ensures LedgerInv(b)
    ensures forall k :: Frontier(a, k) == Frontier(b, k)
  {
    forall k
      ensures Frontier(a, k) == Frontier(b, k)
    {
      SameLedgerNums(a, b, k);
    }
    forall r | r in b
      ensures 1 <= r.num <= Frontier(b, r.stream)
    {
      var i :| 0 <= i < |b| && b[i] == r;
      assert a[i] in a;
    }
  }

  lemma {:induction false} EraseSameLedger(rows: seq<Stored>, sid: string, now: int)
    ensures SameLedger(rows, Erase(rows, sid, now))
    ensures forall i :: 0 <= i < |rows| ==>
              Erase(rows, sid, now)[i] == if ErasesRow(rows[i], sid) then Blank(rows[i], now) else rows[i]
  {
    if rows != [] {
      EraseSameLedger(rows[1..], sid, now);
      var tail := Erase(rows[1..], sid, now);
      forall i | 0 < i < |rows|
        ensures Erase(rows, sid, now)[i] == if ErasesRow(rows[i], sid) then Blank(rows[i], now) else rows[i]
      {
        assert Erase(rows, sid, now)[i] == tail[i - 1];
        assert rows[1..][i - 1] == rows[i];
      }
    }
  }

  lemma {:induction false} ExpireSameLedger(rows: seq<Stored>, policies: map<string, Option<int>>, now: int)
    ensures SameLedger(rows, Expire(rows, policies, now))
    ensures forall i :: 0 <= i < |rows| ==>
              Expire(rows, policies, now)[i]
              == if ExpiresRow(rows[i], policies, now) then Blank(rows[i], now) else rows[i]
  {
    if rows != [] {
      ExpireSameLedger(rows[1..], policies, now);
      var tail := Expire(rows[1..], policies, now);
      forall i | 0 < i < |rows|
        ensures Expire(rows, policies, now)[i]
             == if ExpiresRow(rows[i], policies, now) then Blank(rows[i], now) else rows[i]
      {
        assert Expire(rows, policies, now)[i] == tail[i - 1];
        assert rows[1..][i - 1] == rows[i];
      }
    }
  }

  // An erased session has no payload left and a second erasure changes nothing.
  lemma EraseIdempotent(rows: seq<Stored>, sid: string, now: int, later: int)
    ensures Erase(Erase(rows, sid, now), sid, later) == Erase(rows, sid, now)
    ensures forall r :: r in Erase(rows, sid, now) && r.stream.sid == sid ==> r.redactedAt.Some?
  {
    EraseSameLedger(rows, sid, now);
    EraseSameLedger(Erase(rows, sid, now), sid, later);
  }

  // A row loses its payload in exactly these cases: its session is erased, or its session
  // has a policy that is not "for ever" and either keeps nothing or is past its days.
  // Whatever else happens leaves it as it is.
  lemma RedactsExactly(w: World, a: Action, i: nat)
    requires i < |w.rows|
    ensures var t := Act(w, a).0.rows; var r := w.rows[i];
            && i < |t|
            && match a
               case EraseAction(sid, now) =>
                 t[i] == if r.redactedAt.None? && r.stream.sid == sid then r.(data := "", redactedAt := Some(now)) else r
               case ExpireAction(policies, now) =>
                 t[i] == if r.redactedAt.None? && PastPolicy(r, policies, now)
                         then r.(data := "", redactedAt := Some(now)) else r
               case _ => t[i] == r
  {
    match a
    case EraseAction(sid, now) => EraseSameLedger(w.rows, sid, now);
    case ExpireAction(policies, now) => ExpireSameLedger(w.rows, policies, now);
    case _ =>
  }

  ghost predicate PastPolicy(r: Stored, policies: map<string, Option<int>>, now: int) {
    && r.stream.sid in policies && policies[r.stream.sid].Some?
    && var days := policies[r.stream.sid].value;
       if days > 0 then r.createdAt + days * SECONDS_PER_DAY <= now else days == 0 || r.createdAt <= now
  }

  // What is marked as redacted has no payload left.
  ghost predicate BlankInv(w: World) {
    && (forall r :: r in w.rows && r.redactedAt.Some? ==> r.data == "")
    && (forall c :: c in w.held && w.held[c].row.redactedAt.Some? ==> w.held[c].row.data == "")
  }

  lemma ActBlank(w: World, a: Action)
    requires BlankInv(w)
    ensures BlankInv(Act(w, a).0)
  {
    var t := Act(w, a).0;
    match a
    case EraseAction(sid, now) =>
      EraseSameLedger(w.rows, sid, now);
      forall i | 0 <= i < |t.rows| && t.rows[i].redactedAt.Some?
        ensures t.rows[i].data == ""
      {
        assert w.rows[i] in w.rows;
      }
    case ExpireAction(policies, now) =>
      ExpireSameLedger(w.rows, policies, now);
      forall i | 0 <= i < |t.rows| && t.rows[i].redactedAt.Some?
        ensures t.rows[i].data == ""
      {
        assert w.rows[i] in w.rows;
      }
    case _ =>
  }

  // In every interleaving, and right after an erasure no payload of the session is left.
  lemma {:induction false} RedactedIsBlank(w: World, actions: seq<Action>, sid: string, now: int)
    requires BlankInv(w)
    ensures var v := ActAll(w, actions).0; var t := Act(v, EraseAction(sid, now)).0;
            && (forall r :: r in v.rows && r.redactedAt.Some? ==> r.data == "")
            && (forall r :: r in t.rows && r.stream.sid == sid ==> r.redactedAt.Some? && r.data == "")
    decreases |actions|
  {
    if actions == [] {
      ActBlank(w, EraseAction(sid, now));
      EraseIdempotent(w.rows, sid, now, now);
    } else {
      ActBlank(w, actions[0]);
      RedactedIsBlank(Act(w, actions[0]).0, actions[1..], sid, now);
    }
  }

  // ---- Invariant of interleaved connections ------------------------------------------------

  ghost predicate WorldInv(w: World) {
    && LedgerInv(w.rows)
    && forall c :: c in w.held ==>
         1 <= w.held[c].row.num == w.held[c].expected <= Frontier(w.rows, w.held[c].row.stream) + 1
  }

  predicate WellFormed(a: Action) {
    a.ClassifyAction? ==> a.frame.num >= 1
  }

  lemma ActInv(w: World, a: Action)
    requires WorldInv(w) && WellFormed(a)
    ensures WorldInv(Act(w, a).0)
    ensures forall k :: Frontier(w.rows, k) <= Frontier(Act(w, a).0.rows, k)
  {
    match a
    case ClassifyAction(conn, f) => ClassifyExact(w.rows, f);
    case CommitAction(conn, violation) =>
      if conn in w.held {
        CommitGrows(w.rows, w.held[conn].row, violation);
      }
    case EraseAction(sid, now) =>
      EraseSameLedger(w.rows, sid, now);
      SameLedgerInv(w.rows, Erase(w.rows, sid, now));
    case ExpireAction(policies, now) =>
      ExpireSameLedger(w.rows, policies, now);
      SameLedgerInv(w.rows, Expire(w.rows, policies, now));
  }

  // However the classifies and commits of any number of connections interleave,
  // and whatever they send: the stored numbers of a stream are exactly 1..F.
  lemma {:induction false} InterleavedExact(w: World, actions: seq<Action>)
    requires WorldInv(w)
    requires forall a :: a in actions ==> WellFormed(a)
    ensures WorldInv(ActAll(w, actions).0)
    ensures forall k :: Exactly(Nums(ActAll(w, actions).0.rows, k), Frontier(ActAll(w, actions).0.rows, k))
    decreases |actions|
  {
    if actions == [] {
      forall k
        ensures Exactly(Nums(w.rows, k), Frontier(w.rows, k))
      {
        LedgerExact(w.rows, k);
      }
    } else {
      ActInv(w, actions[0]);
      InterleavedExact(Act(w, actions[0]).0, actions[1..]);
    }
  }

  // ---- What is answered -----------------------------------------------------------------------

  // A row of this stream, number and payload hash is there.
  ghost predicate HasRow(rows: seq<Stored>, k: Stream, num: nat, hash: string) {
    exists r :: r in rows && r.stream == k && r.num == num && r.hash == hash
  }

  ghost predicate HasOther(rows: seq<Stored>, k: Stream, num: nat, hash: string) {
    exists r :: r in rows && r.stream == k && r.num == num && r.hash != hash
  }

  // Under an exact ledger a number has one row or none.
  lemma FoundRow(rows: seq<Stored>, k: Stream, num: nat, hash: string)
    requires LedgerInv(rows)
    ensures HasRow(rows, k, num, hash) <==> FindRow(rows, k, num).Some? && FindRow(rows, k, num).value.hash == hash
    ensures HasOther(rows, k, num, hash) <==> FindRow(rows, k, num).Some? && FindRow(rows, k, num).value.hash != hash
    ensures FindRow(rows, k, num).Some? <==> 1 <= num <= Frontier(rows, k)
  {
    FindRowMeans(rows, k, num);
    LedgerExact(rows, k);
    if FindRow(rows, k, num).Some? {
      var found := FindRow(rows, k, num).value;
      forall r | r in rows && r.stream == k && r.num == num
        ensures r == found
      {
        var i :| 0 <= i < |rows| && rows[i] == r;
        var j :| 0 <= j < |rows| && rows[j] == found;
        assert i < j || j < i || i == j;
      }
    } else {
      assert num !in Nums(rows, k);
    }
  }

  // At every point of every interleaving. A frame that is read is acknowledged at once if
  // and only if its very payload is stored, fenced if and only if another one is stored
  // under its number, asked back from the frontier on if it is past it, and otherwise
  // held for its commit. A held row is then acknowledged if it is stored by now, by
  // whomever, with its payload; fenced if another payload won; and asked for again only
  // after a violation.
  lemma AnswersExactly(w: World, actions: seq<Action>, n: nat)
    requires WorldInv(w) && n < |actions|
    requires forall a :: a in actions ==> WellFormed(a)
    ensures var v := ActAll(w, actions[..n]).0; var (t, replies) := Act(v, actions[n]);
            match actions[n]
            case ClassifyAction(c, f) => ReadAnswers(v, t, replies, c, f)
            case CommitAction(c, violation) => CommitAnswers(v, t, replies, c, violation)
            case EraseAction(_, _) => replies == []
            case ExpireAction(_, _) => replies == []
  {
    forall a | a in actions[..n]
      ensures WellFormed(a)
    {}
    InterleavedExact(w, actions[..n]);
    var v := ActAll(w, actions[..n]).0;
    match actions[n]
    case ClassifyAction(c, f) =>
      assert WellFormed(actions[n]);
      ReadAnswered(v, c, f);
    case CommitAction(c, violation) => CommitAnswered(v, c, violation);
    case _ =>
  }

  ghost predicate ReadAnswers(v: World, t: World, replies: seq<Reply>, c: nat, f: Incoming) {
    var hash := PayloadHash(f.kind, f.data);
    var frontier := Frontier(v.rows, f.stream);
    && t.rows == v.rows
    && (HasRow(v.rows, f.stream, f.num, hash) <==> replies == [AckReply(f.stream, f.num)])
    && (HasOther(v.rows, f.stream, f.num, hash) <==> replies == [FenceReply(f.stream, f.num)])
    && (f.num > frontier + 1 <==> replies == [ResendReply(f.stream, frontier + 1)])
    && (f.num == frontier + 1 <==> replies == [])
    && (if replies == []
        then t.held.Keys == v.held.Keys + {c} && t.held[c].row.stream == f.stream && t.held[c].row.num == f.num
             && t.held[c].row.hash == hash && t.held[c].row.data == (if f.redact then "" else f.data)
             && t.held[c].row.redactedAt == (if f.redact then Some(f.now) else None)
             && t.held == v.held[c := t.held[c]]
        else t.held == v.held)
  }

  ghost predicate CommitAnswers(v: World, t: World, replies: seq<Reply>, c: nat, violation: bool) {
    if c !in v.held then t == v && replies == []
    else
      var row := v.held[c].row;
      var there := HasRow(v.rows, row.stream, row.num, row.hash);
      var other := HasOther(v.rows, row.stream, row.num, row.hash);
      && t.held == v.held - {c}
      && (there || (!other && !violation) <==> replies == [AckReply(row.stream, row.num)])
      && (other <==> replies == [FenceReply(row.stream, row.num)])
      && (!there && !other && violation <==> replies == [ResendReply(row.stream, Frontier(v.rows, row.stream) + 1)])
      && t.rows == if !there && !other && !violation then v.rows + [row] else v.rows
  }

  lemma ReadAnswered(v: World, c: nat, f: Incoming)
    requires WorldInv(v) && f.num >= 1
    ensures ReadAnswers(v, Act(v, ClassifyAction(c, f)).0, Act(v, ClassifyAction(c, f)).1, c, f)
  {
    FoundRow(v.rows, f.stream, f.num, PayloadHash(f.kind, f.data));
  }

  lemma CommitAnswered(v: World, c: nat, violation: bool)
    requires WorldInv(v)
    ensures CommitAnswers(v, Act(v, CommitAction(c, violation)).0, Act(v, CommitAction(c, violation)).1, c, violation)
  {
    if c in v.held {
      FoundRow(v.rows, v.held[c].row.stream, v.held[c].row.num, v.held[c].row.hash);
    }
  }

  // The frame or the held row that an action is about, with its payload hash.
  ghost predicate About(v: World, a: Action, k: Stream, num: nat, hash: string) {
    match a
    case ClassifyAction(_, f) => f.stream == k && f.num == num && PayloadHash(f.kind, f.data) == hash
    case CommitAction(c, _) => c in v.held && v.held[c].row.stream == k && v.held[c].row.num == num && v.held[c].row.hash == hash
    case _ => false
  }

  // What is stored stays stored, redacted or not.
  lemma ActStores(w: World, a: Action, k: Stream, num: nat, hash: string)
    requires HasRow(w.rows, k, num, hash)
    ensures HasRow(Act(w, a).0.rows, k, num, hash)
  {
    var t := Act(w, a).0.rows;
    var i :| 0 <= i < |w.rows| && w.rows[i].stream == k && w.rows[i].num == num && w.rows[i].hash == hash;
    match a {
      case EraseAction(sid, now) => EraseSameLedger(w.rows, sid, now);
      case ExpireAction(policies, now) => ExpireSameLedger(w.rows, policies, now);
      case _ => assert t[..|w.rows|] == w.rows;
    }
    assert t[i].stream == k && t[i].num == num && t[i].hash == hash;
    assert t[i] in t;
  }

  lemma {:induction false} ActAllStores(w: World, actions: seq<Action>, k: Stream, num: nat, hash: string)
    requires HasRow(w.rows, k, num, hash)
    ensures HasRow(ActAll(w, actions).0.rows, k, num, hash)
    decreases |actions|
  {
    if actions != [] {
      ActStores(w, actions[0], k, num, hash);
      ActAllStores(Act(w, actions[0]).0, actions[1..], k, num, hash);
    }
  }

  lemma FirstAck(w: World, a: Action, k: Stream, num: nat)
    requires WorldInv(w) && WellFormed(a) && AckReply(k, num) in Act(w, a).1
    ensures exists hash :: About(w, a, k, num, hash) && HasRow(Act(w, a).0.rows, k, num, hash)
  {
    match a
    case ClassifyAction(c, f) =>
      ReadAnswered(w, c, f);
      assert About(w, a, k, num, PayloadHash(f.kind, f.data));
    case CommitAction(c, violation) =>
      CommitAnswered(w, c, violation);
      var row := w.held[c].row;
      assert About(w, a, k, num, row.hash);
      if !HasRow(w.rows, k, num, row.hash) {
        assert (w.rows + [row])[|w.rows|] == row;
      }
  }

  // However reads, commits and redactions interleave: whatever is acknowledged in a run
  // answers a frame of that run, and that frame's own payload hash is stored under its
  // stream and number from then on.
  lemma {:induction false} OnlyStoredIsAcknowledged(w: World, actions: seq<Action>, k: Stream, num: nat)
    requires WorldInv(w) && AckReply(k, num) in ActAll(w, actions).1
    requires forall a :: a in actions ==> WellFormed(a)
    ensures exists n, hash :: 0 <= n < |actions| && About(ActAll(w, actions[..n]).0, actions[n], k, num, hash)
                              && HasRow(ActAll(w, actions).0.rows, k, num, hash)
    decreases |actions|
  {
    var (next, replies) := Act(w, actions[0]);
    assert WellFormed(actions[0]);
    if AckReply(k, num) in replies {
      FirstAck(w, actions[0], k, num);
      var hash :| About(w, actions[0], k, num, hash) && HasRow(next.rows, k, num, hash);
      ActAllStores(next, actions[1..], k, num, hash);
      assert actions[..0] == [];
      assert About(ActAll(w, actions[..0]).0, actions[0], k, num, hash);
    } else {
      ActInv(w, actions[0]);
      OnlyStoredIsAcknowledged(next, actions[1..], k, num);
      var n, hash :| 0 <= n < |actions| - 1 && About(ActAll(next, actions[1..][..n]).0, actions[1..][n], k, num, hash)
                     && HasRow(ActAll(next, actions[1..]).0.rows, k, num, hash);
      assert actions[..n + 1][1..] == actions[1..][..n];
      assert About(ActAll(w, actions[..n + 1]).0, actions[n + 1], k, num, hash);
    }
  }

  // ---- Redaction is invisible to the protocol ------------------------------------------------

  // The same run without redactions and with retention that keeps every payload.
  function Unredacted(actions: seq<Action>): seq<Action> {
    if actions == [] then []
    else
      (match actions[0]
       case ClassifyAction(conn, f) => [ClassifyAction(conn, f.(redact := false))]
       case CommitAction(_, _) => [actions[0]]
       case EraseAction(_, _) => []
       case ExpireAction(_, _) => []) + Unredacted(actions[1..])
  }

  ghost predicate SameWorld(v: World, w: World) {
    && SameLedger(v.rows, w.rows)
    && v.held.Keys == w.held.Keys
    && forall c :: c in v.held ==>
         && v.held[c].row.stream == w.held[c].row.stream
         && v.held[c].row.num == w.held[c].row.num
         && v.held[c].row.hash == w.held[c].row.hash
         && v.held[c].expected == w.held[c].expected
  }

  lemma ClassifySame(v: World, w: World, conn: nat, f: Incoming)
    requires SameWorld(v, w)
    ensures var a, b := Act(v, ClassifyAction(conn, f)), Act(w, ClassifyAction(conn, f.(redact := false)));
            SameWorld(a.0, b.0) && a.1 == b.1
  {
    SameLedgerFind(v.rows, w.rows, f.stream, f.num);
    SameLedgerNums(v.rows, w.rows, f.stream);
  }

  lemma CommitSame(v: World, w: World, conn: nat, violation: bool)
    requires SameWorld(v, w)
    ensures var a, b := Act(v, CommitAction(conn, violation)), Act(w, CommitAction(conn, violation));
            SameWorld(a.0, b.0) && a.1 == b.1
  {
    if conn in v.held {
      SameLedgerFind(v.rows, w.rows, v.held[conn].row.stream, v.held[conn].row.num);
    }
  }

  // Erasing, expiring and storing nothing but hashes never change an answer.
  lemma {:induction false} RedactionInvisible(v: World, w: World, actions: seq<Action>)
    requires SameWorld(v, w)
    ensures SameWorld(ActAll(v, actions).0, ActAll(w, Unredacted(actions)).0)
    ensures ActAll(v, actions).1 == ActAll(w, Unredacted(actions)).1
    decreases |actions|
  {
    if actions != [] {
      var a, tail := actions[0], Unredacted(actions[1..]);
      var next := Act(v, a).0;
      match a
      case EraseAction(sid, now) =>
        EraseSameLedger(v.rows, sid, now);
        RedactionInvisible(next, w, actions[1..]);
        assert Unredacted(actions) == tail;
      case ExpireAction(policies, now) =>
        ExpireSameLedger(v.rows, policies, now);
        RedactionInvisible(next, w, actions[1..]);
        assert Unredacted(actions) == tail;
      case ClassifyAction(conn, f) =>
        ClassifySame(v, w, conn, f);
        var b := ClassifyAction(conn, f.(redact := false));
        assert Unredacted(actions)[0] == b && Unredacted(actions)[1..] == tail;
        RedactionInvisible(next, Act(w, b).0, actions[1..]);
      case CommitAction(conn, violation) =>
        CommitSame(v, w, conn, violation);
        assert Unredacted(actions)[0] == a && Unredacted(actions)[1..] == tail;
        RedactionInvisible(next, Act(w, a).0, actions[1..]);
    }
  }
}
