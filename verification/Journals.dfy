// The lease journal of a native CLI session, byte by byte: its two canonical
// encodings, the strict reader, and writes cut short at any point.
module Journals {
  import opened Common

  const MAX_JOURNAL: nat := 4096
  const OWNER_LENGTH := 32
  const MAX_DIGITS := 308

  // Numbers are kept as their decimal text.
  datatype Journal =
    | Idle
    | Active(owner: string, pid: string, started: string)

  datatype Reading = IsIdle | IsActive(owner: string) | RecoveryRequired

  // ---- A flat JSON object of strings and numbers --------------------------------------

  datatype Value = Text(text: string) | Number(text: string)
  datatype Member = Member(key: string, value: Value)

  predicate Digit(c: char) { '0' <= c <= '9' }

  predicate NumberChar(c: char) { Digit(c) || c == '.' }

  // A character that stands for itself inside a string.
  predicate Plain(c: char) { ' ' <= c && c != '"' && c != '\\' }

  predicate AllDigits(t: string) {
    t != "" && forall i :: 0 <= i < |t| ==> Digit(t[i])
  }

  predicate IsInteger(t: string) {
    AllDigits(t) && (t[0] == '0' ==> t == "0")
  }

  // Digits with at most one point between them, and no superfluous zero in front.
  predicate IsNumber(t: string) {
    IsInteger(t)
    || exists dot :: 0 < dot < |t| && t[dot] == '.' && IsInteger(t[..dot]) && AllDigits(t[dot + 1..])
  }

  function EncodeValue(v: Value): string {
    match v
    case Text(t) => "\"" + t + "\""
    case Number(t) => t
  }

  function EncodeMembers(members: seq<Member>): string {
    if members == [] then ""
    else "\"" + members[0].key + "\":" + EncodeValue(members[0].value)
         + (if |members| == 1 then "}" else "," + EncodeMembers(members[1..]))
  }

  function EncodeObject(members: seq<Member>): string {
    "{" + EncodeMembers(members)
  }

  // The text up to the next quote, and what follows it.
  function UntilQuote(s: string): (r: Option<(string, string)>)
    ensures r.Some? ==> |r.value.1| < |s|
  {
    if s == "" then None
    else if s[0] == '"' then Some(("", s[1..]))
    else if !Plain(s[0]) then None
    else match UntilQuote(s[1..])
         case None => None
         case Some((text, rest)) => Some(([s[0]] + text, rest))
  }

  function NumberRun(s: string): (r: (string, string))
    ensures s == r.0 + r.1
  {
    if s == "" || !NumberChar(s[0]) then ("", s)
    else var (text, rest) := NumberRun(s[1..]); ([s[0]] + text, rest)
  }

  function ParseValue(s: string): (r: Option<(Value, string)>)
    ensures r.Some? ==> |r.value.1| <= |s|
  {
    if s != "" && s[0] == '"' then
      match UntilQuote(s[1..])
      case None => None
      case Some((text, rest)) => Some((Text(text), rest))
    else
      var (text, rest) := NumberRun(s);
      if IsNumber(text) then Some((Number(text), rest)) else None
  }

  // The members from here to the closing brace, which must end the text.
  function ParseMembers(s: string): Option<seq<Member>>
    decreases |s|
  {
    if s == "" || s[0] != '"' then None
    else match UntilQuote(s[1..])
         case None => None
         case Some((key, colon)) =>
           if colon == "" || colon[0] != ':' then None
           else match ParseValue(colon[1..])
                case None => None
                case Some((v, rest)) =>
                  if rest == "}" then Some([Member(key, v)])
                  else if rest == "" || rest[0] != ',' then None
                  else match ParseMembers(rest[1..])
                       case None => None
                       case Some(more) => Some([Member(key, v)] + more)
  }

  function ParseObject(s: string): Option<seq<Member>> {
    if s == "" || s[0] != '{' then None else ParseMembers(s[1..])
  }

  // ---- Encoding and reading a journal -----------------------------------------------------

  function StateMembers(state: string): seq<Member> {
    [Member("version", Number("1")), Member("state", Text(state))]
  }

  function MembersOf(state: string, owner: string, pid: string, started: string): seq<Member> {
    StateMembers(state) + [Member("owner", Text(owner)), Member("supervisor_pid", Number(pid)),
                           Member("started_at", Number(started))]
  }

  function Members(j: Journal): seq<Member> {
    match j
    case Idle => StateMembers("idle")
    case Active(owner, pid, started) =>
      MembersOf("active", owner, pid, started)
  }

  function Encode(j: Journal): string {
    EncodeObject(Members(j))
  }

  predicate HexDigit(c: char) { Digit(c) || 'a' <= c <= 'f' }

  predicate ValidOwner(owner: string) {
    |owner| == OWNER_LENGTH && forall i :: 0 <= i < |owner| ==> HexDigit(owner[i])
  }

  predicate Nonzero(t: string) {
    exists i :: 0 <= i < |t| && Digit(t[i]) && t[i] != '0'
  }

  predicate ValidPid(t: string) { IsInteger(t) && Nonzero(t) }

  predicate ValidStarted(t: string) { IsNumber(t) && Nonzero(t) && |t| <= MAX_DIGITS }

  predicate WellFormed(j: Journal) {
    j.Active? ==> ValidOwner(j.owner) && ValidPid(j.pid) && ValidStarted(j.started)
  }

  function Field(members: seq<Member>, key: string): Option<Value> {
    if members == [] then None
    else if members[0].key == key then Some(members[0].value)
    else Field(members[1..], key)
  }

  predicate DistinctKeys(members: seq<Member>) {
    forall i, j :: 0 <= i < j < |members| ==> members[i].key != members[j].key
  }

  function Interpret(members: seq<Member>): Reading {
    var state := Field(members, "state");
    if !DistinctKeys(members) || Field(members, "version") != Some(Number("1")) then RecoveryRequired
    else if state == Some(Text("idle")) && |members| == 2 then IsIdle
    else if state != Some(Text("active")) || |members| != 5 then RecoveryRequired
    else
      match (Field(members, "owner"), Field(members, "supervisor_pid"), Field(members, "started_at"))
      case (Some(Text(owner)), Some(Number(pid)), Some(Number(started))) =>
        if ValidOwner(owner) && ValidPid(pid) && ValidStarted(started) then IsActive(owner) else RecoveryRequired
      case _ => RecoveryRequired
  }

  // Byte zero is reserved for the lock. A missing file reads like an empty one.
  function Read(file: string): Reading {
    if file == "" then IsIdle
    else if |file| == 1 || |file| - 1 > MAX_JOURNAL then RecoveryRequired
    else match ParseObject(file[1..])
         case None => RecoveryRequired
         case Some(members) => Interpret(members)
  }

  // ---- Writing ----------------------------------------------------------------------------

  // A hole in front of a write reads as zeros.
  function WriteAt(file: string, pos: nat, chunk: string): string {
    if chunk == "" then file
    else
      (if pos <= |file| then file[..pos] else file + seq(pos - |file|, _ => '\0'))
      + chunk
      + (if pos + |chunk| <= |file| then file[pos + |chunk|..] else "")
  }

  function Truncate(file: string, size: nat): string {
    if size <= |file| then file[..size] else file + seq(size - |file|, _ => '\0')
  }

  function Replaced(file: string, data: string): string {
    Truncate(WriteAt(file, 1, data), 1 + |data|)
  }

  // How a journal write ended: whole; stopped after some bytes and before the
  // truncation; or truncated and not known to be on disk.
  datatype Cut = Whole | Stopped(written: nat) | Unsynced

  function Written(file: string, data: string, cut: Cut): string {
    if |data| > MAX_JOURNAL then file
    else if cut.Stopped? then WriteAt(file, 1, if cut.written <= |data| then data[..cut.written] else data)
    else Replaced(file, data)
  }

  // The file of a journal that was written whole. Byte zero keeps its value.
  ghost predicate Holds(file: string, j: Journal) {
    WellFormed(j) && |Encode(j)| <= MAX_JOURNAL && file != "" && file[1..] == Encode(j)
  }

  // What lease code ever finds: nothing yet, a whole journal, or debris.
  ghost predicate Wholesome(file: string) {
    file == "" || (exists j :: Holds(file, j)) || Read(file) == RecoveryRequired
  }

  // ---- Parsing what was encoded --------------------------------------------------------------

  predicate AllPlain(t: string) {
    forall i :: 0 <= i < |t| ==> Plain(t[i])
  }

  predicate Clean(m: Member) {
    AllPlain(m.key) && if m.value.Text? then AllPlain(m.value.text) else IsNumber(m.value.text)
  }

  lemma {:induction false} UntilQuoteFinds(t: string, rest: string)
    requires AllPlain(t)
    ensures UntilQuote(t + "\"" + rest) == Some((t, rest))
  {
    var s := t + "\"" + rest;
    if t == "" {
      assert s[1..] == rest;
    } else {
      assert s[1..] == t[1..] + "\"" + rest;
      UntilQuoteFinds(t[1..], rest);
      assert t == [t[0]] + t[1..];
    }
  }

  lemma {:induction false} UntilQuoteMisses(s: string)
    requires '"' !in s
    ensures UntilQuote(s).None?
  {
    if s != "" && Plain(s[0]) {
      UntilQuoteMisses(s[1..]);
    }
  }

  lemma {:induction false} NumberRunFinds(t: string, rest: string)
    requires forall i :: 0 <= i < |t| ==> NumberChar(t[i])
    requires rest == "" || !NumberChar(rest[0])
    ensures NumberRun(t + rest) == (t, rest)
  {
    if t == "" {
      assert t + rest == rest;
    } else {
      assert (t + rest)[1..] == t[1..] + rest;
      NumberRunFinds(t[1..], rest);
      assert t == [t[0]] + t[1..];
    }
  }

  lemma NumberChars(t: string)
    requires IsNumber(t)
    ensures t != "" && forall i :: 0 <= i < |t| ==> NumberChar(t[i])
  {
    if !IsInteger(t) {
      var dot :| 0 < dot < |t| && t[dot] == '.' && IsInteger(t[..dot]) && AllDigits(t[dot + 1..]);
      forall i | 0 <= i < |t|
        ensures NumberChar(t[i])
      {
        if i < dot {
          assert t[i] == t[..dot][i];
        } else if i > dot {
          assert t[i] == t[dot + 1..][i - dot - 1];
        }
      }
    }
  }

  lemma ParseValueFinds(v: Value, rest: string)
    requires Clean(Member("", v))
    requires v.Number? ==> rest == "" || !NumberChar(rest[0])
    ensures ParseValue(EncodeValue(v) + rest) == Some((v, rest))
  {
    var s := EncodeValue(v) + rest;
    match v
    case Text(t) =>
      assert s[1..] == t + "\"" + rest;
      UntilQuoteFinds(t, rest);
    case Number(t) =>
      NumberChars(t);
      NumberRunFinds(t, rest);
      assert s[0] == t[0];
  }

  function EncodeMember(m: Member): string {
    "\"" + m.key + "\":" + EncodeValue(m.value)
  }

  lemma KeyFound(m: Member, rest: string)
    requires AllPlain(m.key)
    ensures var s := EncodeMember(m) + rest;
            && s != "" && s[0] == '"'
            && UntilQuote(s[1..]) == Some((m.key, ":" + (EncodeValue(m.value) + rest)))
  {
    var s := EncodeMember(m) + rest;
    var colon := ":" + (EncodeValue(m.value) + rest);
    assert s[1..] == m.key + "\"" + colon;
    UntilQuoteFinds(m.key, colon);
  }

  // One member in front of anything that does not extend it.
  lemma ParseOne(m: Member, rest: string)
    requires Clean(m)
    requires m.value.Number? ==> rest == "" || !NumberChar(rest[0])
    ensures ParseMembers(EncodeMember(m) + rest)
         == if rest == "}" then Some([m])
            else if rest == "" || rest[0] != ',' then None
            else match ParseMembers(rest[1..])
                 case None => None
                 case Some(more) => Some([m] + more)
  {
    var s := EncodeMember(m) + rest;
    var value := EncodeValue(m.value) + rest;
    var colon := ":" + value;
    KeyFound(m, rest);
    assert colon[1..] == value;
    assert ParseValue(value) == Some((m.value, rest)) by {
      ParseValueFinds(m.value, rest);
    }
    assert m == Member(m.key, m.value);
  }

  lemma {:induction false} ParseEncodedMembers(members: seq<Member>)
    requires members != [] && forall m :: m in members ==> Clean(m)
    ensures ParseMembers(EncodeMembers(members)) == Some(members)
  {
    var m := members[0];
    if |members| == 1 {
      ParseOne(m, "}");
      assert members == [m];
    } else {
      ParseEncodedMembers(members[1..]);
      ParseCons(m, EncodeMembers(members[1..]));
      EncodeCons(m, members[1..]);
      assert members == [m] + members[1..];
    }
  }

  lemma ParseCons(m: Member, rest: string)
    requires Clean(m) && ParseMembers(rest).Some?
    ensures ParseMembers(EncodeMember(m) + ("," + rest)) == Some([m] + ParseMembers(rest).value)
  {
    ParseOne(m, "," + rest);
    assert ("," + rest)[1..] == rest;
  }

  lemma EncodeCons(m: Member, rest: seq<Member>)
    requires rest != []
    ensures EncodeMembers([m] + rest) == EncodeMember(m) + ("," + EncodeMembers(rest))
  {
    assert ([m] + rest)[1..] == rest;
  }

  lemma ParseEncoded(members: seq<Member>)
    requires members != [] && forall m :: m in members ==> Clean(m)
    ensures ParseObject(EncodeObject(members)) == Some(members)
  {
    ParseEncodedMembers(members);
    assert EncodeObject(members)[1..] == EncodeMembers(members);
  }

  // ---- Nothing else parses -----------------------------------------------------------------

  lemma {:induction false} UntilQuoteBack(s: string)
    requires UntilQuote(s).Some?
    ensures var (text, rest) := UntilQuote(s).value; s == text + "\"" + rest && AllPlain(text)
  {
    if s[0] != '"' {
      UntilQuoteBack(s[1..]);
      var (text, rest) := UntilQuote(s[1..]).value;
      assert s == [s[0]] + s[1..];
      assert [s[0]] + text + "\"" + rest == [s[0]] + (text + "\"" + rest);
    } else {
      assert s == "\"" + s[1..];
      assert "" + "\"" + s[1..] == "\"" + s[1..];
    }
  }

  lemma ParseValueBack(s: string)
    requires ParseValue(s).Some?
    ensures var (v, rest) := ParseValue(s).value;
            s == EncodeValue(v) + rest && if v.Text? then AllPlain(v.text) else IsNumber(v.text)
  {
    if s != "" && s[0] == '"' {
      UntilQuoteBack(s[1..]);
      var (text, rest) := UntilQuote(s[1..]).value;
      assert s == "\"" + s[1..];
      assert "\"" + (text + "\"" + rest) == "\"" + text + "\"" + rest;
    }
  }

  // One member in front: its key, a colon, its value, and what follows.
  lemma ParseOneBack(s: string)
    requires ParseMembers(s).Some?
    ensures var (key, colon) := UntilQuote(s[1..]).value; var (v, rest) := ParseValue(colon[1..]).value;
            Clean(Member(key, v)) && s == EncodeMember(Member(key, v)) + rest
  {
    UntilQuoteBack(s[1..]);
    var (key, colon) := UntilQuote(s[1..]).value;
    ParseValueBack(colon[1..]);
    var (v, rest) := ParseValue(colon[1..]).value;
    assert s == "\"" + s[1..];
    assert colon == ":" + colon[1..];
    OneMember(key, EncodeValue(v), rest);
  }

  lemma OneMember(key: string, value: string, rest: string)
    ensures "\"" + (key + "\"" + (":" + (value + rest))) == ("\"" + key + "\":" + value) + rest
  {
    assert "\":" == "\"" + ":";
  }

  lemma {:induction false} ParsedMembersBack(s: string)
    requires ParseMembers(s).Some?
    ensures var ms := ParseMembers(s).value;
            ms != [] && (forall m :: m in ms ==> Clean(m)) && s == EncodeMembers(ms)
    decreases |s|
  {
    ParseOneBack(s);
    var (key, colon) := UntilQuote(s[1..]).value;
    var (v, rest) := ParseValue(colon[1..]).value;
    var m := Member(key, v);
    if rest != "}" {
      ParsedMembersBack(rest[1..]);
      var more := ParseMembers(rest[1..]).value;
      EncodeCons(m, more);
      assert rest == "," + rest[1..];
      assert ParseMembers(s).value == [m] + more;
    } else {
      assert [m][1..] == [];
      assert EncodeMembers([m]) == EncodeMember(m) + "}";
    }
  }

  // The reader takes exactly what the writer writes of plain members.
  lemma ParsesExactly(s: string, members: seq<Member>)
    ensures ParseObject(s) == Some(members)
       <==> members != [] && (forall m :: m in members ==> Clean(m)) && s == EncodeObject(members)
  {
    if ParseObject(s).Some? {
      ParsedMembersBack(s[1..]);
      assert s == "{" + s[1..];
    }
    if members != [] && (forall m :: m in members ==> Clean(m)) && s == EncodeObject(members) {
      ParseEncoded(members);
    }
  }

  // Nothing parses that does not end with the closing brace.
  lemma {:induction false} ParsedEndsWithBrace(s: string)
    requires ParseMembers(s).Some?
    ensures s != "" && s[|s| - 1] == '}'
    decreases |s|
  {
    var (key, colon) := UntilQuote(s[1..]).value;
    UntilQuoteRest(s[1..]);
    var (v, rest) := ParseValue(colon[1..]).value;
    ParseValueRest(colon[1..]);
    if rest != "}" {
      ParsedEndsWithBrace(rest[1..]);
    }
  }

  ghost predicate EndsWith(s: string, tail: string) {
    |tail| <= |s| && s[|s| - |tail|..] == tail
  }

  lemma {:induction false} UntilQuoteRest(s: string)
    requires UntilQuote(s).Some?
    ensures EndsWith(s, UntilQuote(s).value.1)
  {
    if s[0] != '"' {
      UntilQuoteRest(s[1..]);
    }
  }

  lemma ParseValueRest(s: string)
    requires ParseValue(s).Some?
    ensures EndsWith(s, ParseValue(s).value.1)
  {
    if s != "" && s[0] == '"' {
      UntilQuoteRest(s[1..]);
    }
  }

  // ---- Round trip ----------------------------------------------------------------------------

  lemma CleanMembers(j: Journal)
    requires WellFormed(j)
    ensures forall m :: m in Members(j) ==> Clean(m)
  {
    var one := "1";
    assert IsInteger(one);
    assert AllPlain("version") && AllPlain("state") && AllPlain("idle") && AllPlain("active");
    if j.Active? {
      assert AllPlain("owner") && AllPlain("supervisor_pid") && AllPlain("started_at");
      assert AllPlain(j.owner);
      assert IsNumber(j.pid);
    }
  }

  // The i-th member is found under its key.
  lemma {:induction false} FieldFound(members: seq<Member>, i: nat)
    requires DistinctKeys(members) && i < |members|
    ensures Field(members, members[i].key) == Some(members[i].value)
  {
    if i > 0 {
      FieldFound(members[1..], i - 1);
    }
  }

  lemma InterpretMembers(j: Journal)
    requires WellFormed(j)
    ensures Interpret(Members(j)) == if j.Idle? then IsIdle else IsActive(j.owner)
  {
    var ms := Members(j);
    NamesDiffer();
    FieldFound(ms, 0);
    FieldFound(ms, 1);
    if j.Active? {
      FieldFound(ms, 2);
      FieldFound(ms, 3);
      FieldFound(ms, 4);
      InterpretActive(ms, j.owner, j.pid, j.started);
    }
  }

  lemma InterpretActive(ms: seq<Member>, owner: string, pid: string, started: string)
    requires |ms| == 5 && DistinctKeys(ms) && WellFormed(Active(owner, pid, started))
    requires Field(ms, "version") == Some(Number("1")) && Field(ms, "state") == Some(Text("active"))
    requires Field(ms, "owner") == Some(Text(owner)) && Field(ms, "supervisor_pid") == Some(Number(pid))
    requires Field(ms, "started_at") == Some(Number(started))
    ensures Interpret(ms) == IsActive(owner)
  {
  }

  lemma NamesDiffer()
    ensures "version" != "state" && "version" != "owner" && "version" != "supervisor_pid" && "version" != "started_at"
    ensures "state" != "owner" && "state" != "supervisor_pid" && "state" != "started_at"
    ensures "owner" != "supervisor_pid" && "owner" != "started_at" && "supervisor_pid" != "started_at"
  {
    assert "version"[0] != "state"[0];
    assert |"state"| == |"owner"| && "state"[0] != "owner"[0];
  }

  // A journal that was written whole reads back as itself.
  lemma ReadHeld(file: string, j: Journal)
    requires Holds(file, j)
    ensures Read(file) == if j.Idle? then IsIdle else IsActive(j.owner)
  {
    CleanMembers(j);
    ParseEncoded(Members(j));
    InterpretMembers(j);
    assert file[1..] != "";
  }

  lemma {:induction false} FieldIn(members: seq<Member>, key: string, v: Value)
    requires DistinctKeys(members)
    ensures Field(members, key) == Some(v) <==> Member(key, v) in members
  {
    if members != [] {
      FieldIn(members[1..], key, v);
      assert members == [members[0]] + members[1..];
      forall i | 0 <= i < |members[1..]|
        ensures members[1..][i].key != members[0].key
      {
        assert members[1..][i] == members[i + 1];
      }
    }
  }

  // The members of an idle journal, in any order.
  ghost predicate IdleMembers(ms: seq<Member>) {
    DistinctKeys(ms) && |ms| == 2 && Member("version", Number("1")) in ms && Member("state", Text("idle")) in ms
  }

  // Those of an active one, all three values in order.
  ghost predicate ActiveMembers(ms: seq<Member>, owner: string) {
    && DistinctKeys(ms) && |ms| == 5
    && Member("version", Number("1")) in ms && Member("state", Text("active")) in ms
    && Member("owner", Text(owner)) in ms && |owner| == 32 && (forall c :: c in owner ==> '0' <= c <= '9' || 'a' <= c <= 'f')
    && exists pid, started :: Member("supervisor_pid", Number(pid)) in ms && Member("started_at", Number(started)) in ms
                              && ValidPid(pid) && ValidStarted(started)
  }

  lemma InterpretExact(ms: seq<Member>, owner: string)
    ensures Interpret(ms) == IsIdle <==> IdleMembers(ms)
    ensures Interpret(ms) == IsActive(owner) <==> ActiveMembers(ms, owner)
  {
    if DistinctKeys(ms) {
      FieldIn(ms, "version", Number("1"));
      FieldIn(ms, "state", Text("idle"));
      FieldIn(ms, "state", Text("active"));
      FieldIn(ms, "owner", Text(owner));
      InterpretNumbers(ms, owner);
      OwnerChars(owner);
      if ActiveMembers(ms, owner) {
        var pid, started :| Member("supervisor_pid", Number(pid)) in ms && Member("started_at", Number(started)) in ms
                            && ValidPid(pid) && ValidStarted(started);
        assert Field(ms, "supervisor_pid") == Some(Number(pid)) && Field(ms, "started_at") == Some(Number(started));
        StatesDiffer();
      }
    }
  }

  lemma StatesDiffer()
    ensures "idle" != "active"
  {
    assert |"idle"| == 4;
  }

  lemma OwnerChars(owner: string)
    ensures ValidOwner(owner) <==> |owner| == 32 && forall c :: c in owner ==> '0' <= c <= '9' || 'a' <= c <= 'f'
  {
    if |owner| == 32 && forall c :: c in owner ==> '0' <= c <= '9' || 'a' <= c <= 'f' {
      forall i | 0 <= i < |owner|
        ensures HexDigit(owner[i])
      {
        assert owner[i] in owner;
      }
    }
  }

  lemma InterpretNumbers(ms: seq<Member>, owner: string)
    requires DistinctKeys(ms)
    ensures forall pid :: Field(ms, "supervisor_pid") == Some(Number(pid)) <==> Member("supervisor_pid", Number(pid)) in ms
    ensures forall t :: Field(ms, "started_at") == Some(Number(t)) <==> Member("started_at", Number(t)) in ms
  {
    forall pid
      ensures Field(ms, "supervisor_pid") == Some(Number(pid)) <==> Member("supervisor_pid", Number(pid)) in ms
    {
      FieldIn(ms, "supervisor_pid", Number(pid));
    }
    forall t
      ensures Field(ms, "started_at") == Some(Number(t)) <==> Member("started_at", Number(t)) in ms
    {
      FieldIn(ms, "started_at", Number(t));
    }
  }

  // What a file holds behind its lock byte.
  ghost predicate Carries(file: string, ms: seq<Member>) {
    2 <= |file| <= MAX_JOURNAL + 1 && file[1..] == EncodeObject(ms) && ms != [] && forall m :: m in ms ==> Clean(m)
  }

  // A file reads as idle exactly if it is new or carries an idle journal, and as active under
  // an owner exactly if it carries an active journal of that owner; anything else needs
  // recovery.
  lemma ReadExact(file: string, owner: string)
    ensures Read(file) == IsIdle <==> file == "" || exists ms :: Carries(file, ms) && IdleMembers(ms)
    ensures Read(file) == IsActive(owner) <==> exists ms :: Carries(file, ms) && ActiveMembers(ms, owner)
  {
    if 2 <= |file| <= MAX_JOURNAL + 1 {
      forall ms: seq<Member>
        ensures Carries(file, ms) <==> ParseObject(file[1..]) == Some(ms)
      {
        ParsesExactly(file[1..], ms);
      }
      if ParseObject(file[1..]).Some? {
        InterpretExact(ParseObject(file[1..]).value, owner);
      }
    }
  }

  // ---- Writes that are cut off ------------------------------------------------------------------

  const VERSION := Member("version", Number("1"))

  function TextOpen(key: string): string {
    "\"" + key + "\":\""
  }

  // Every journal starts like this, up to its state word.
  function Head(): string {
    "{" + (EncodeMember(VERSION) + ",") + TextOpen("state")
  }

  function Owned(owner: string, pid: string, started: string): seq<Member> {
    [Member("owner", Text(owner)), Member("supervisor_pid", Number(pid)), Member("started_at", Number(started))]
  }

  function Tail(owner: string, pid: string, started: string): string {
    "\"," + EncodeMembers(Owned(owner, pid, started))
  }

  lemma HeadLength()
    ensures |Head()| == 22
  {
    assert |EncodeMember(VERSION)| == 11;
    assert |TextOpen("state")| == 9;
  }

  lemma EncodeText(key: string, t: string)
    ensures EncodeMember(Member(key, Text(t))) == TextOpen(key) + t + "\""
  {
  }

  lemma EncodeState(w: string)
    ensures EncodeObject(StateMembers(w)) == Head() + w + "\"}"
  {
    var state := Member("state", Text(w));
    EncodeCons(VERSION, [state]);
    EncodeText("state", w);
    assert StateMembers(w) == [VERSION] + [state];
    assert EncodeMembers([state]) == EncodeMember(state) + "}";
    StateText(EncodeMember(VERSION), TextOpen("state"), w, "}");
  }

  lemma StateText(version: string, open: string, w: string, rest: string)
    ensures "{" + (version + ("," + ((open + w + "\"") + rest))) == "{" + (version + ",") + open + w + ("\"" + rest)
  {
  }

  lemma EncodeFull(w: string, owner: string, pid: string, started: string)
    ensures EncodeObject(MembersOf(w, owner, pid, started)) == Head() + w + Tail(owner, pid, started)
  {
    var state := Member("state", Text(w));
    var owned := Owned(owner, pid, started);
    EncodeCons(VERSION, [state] + owned);
    EncodeCons(state, owned);
    EncodeText("state", w);
    assert MembersOf(w, owner, pid, started) == [VERSION] + ([state] + owned);
    StateText(EncodeMember(VERSION), TextOpen("state"), w, "," + EncodeMembers(owned));
    QuoteComma(EncodeMembers(owned));
  }

  // The size of an active journal, which the bound on a journal limits.
  lemma EncodedSize(owner: string, pid: string, started: string)
    ensures |Encode(Active(owner, pid, started))| == 73 + |owner| + |pid| + |started|
  {
    EncodeFull("active", owner, pid, started);
    HeadLength();
    var a, b, c := Member("owner", Text(owner)), Member("supervisor_pid", Number(pid)), Member("started_at", Number(started));
    EncodeCons(a, [b, c]);
    EncodeCons(b, [c]);
    assert Owned(owner, pid, started) == [a] + ([b] + [c]);
    assert [b, c] == [b] + [c];
    EncodeText("owner", owner);
    assert |TextOpen("owner")| == 9;
    assert |EncodeMember(b)| == 17 + |pid| && |EncodeMember(c)| == 13 + |started|;
    assert EncodeMembers([c]) == EncodeMember(c) + "}";
  }

  lemma QuoteComma(s: string)
    ensures "\"" + ("," + s) == "\"," + s
  {
  }

  lemma CleanVersion()
    ensures Clean(VERSION) && AllPlain("state")
  {
    var one := "1";
    assert IsInteger(one);
    assert AllPlain("version") && AllPlain("state");
  }

  // A text that starts like a journal with a complete state word.
  lemma ParseState(w: string, rest: string)
    requires AllPlain(w)
    ensures ParseObject(Head() + w + ("\"" + rest))
         == if rest == "}" then Some(StateMembers(w))
            else if rest == "" || rest[0] != ',' then None
            else match ParseMembers(rest[1..])
                 case None => None
                 case Some(more) => Some([VERSION] + ([Member("state", Text(w))] + more))
  {
    var state := Member("state", Text(w));
    CleanVersion();
    var after := "," + (EncodeMember(state) + rest);
    ParseOne(VERSION, after);
    assert after[1..] == EncodeMember(state) + rest;
    ParseOne(state, rest);
    EncodeText("state", w);
    StateText(EncodeMember(VERSION), TextOpen("state"), w, rest);
    OpenBrace(EncodeMember(VERSION) + after);
    assert StateMembers(w) == [VERSION] + [state];
  }

  lemma OpenBrace(s: string)
    ensures ParseObject("{" + s) == ParseMembers(s)
  {
    assert ("{" + s)[1..] == s;
  }

  // A state word that is cut off: its quote never comes.
  lemma ParseUnclosedState(w: string)
    requires '"' !in w
    ensures ParseObject(Head() + w).None?
  {
    CleanVersion();
    var state := TextOpen("state") + w;
    var after := "," + state;
    ParseOne(VERSION, after);
    assert after[1..] == state;
    HeadThen(EncodeMember(VERSION), TextOpen("state"), w);
    OpenBrace(EncodeMember(VERSION) + after);
    UnclosedText("state", w);
  }

  lemma HeadThen(version: string, open: string, w: string)
    ensures "{" + (version + ",") + open + w == "{" + (version + ("," + (open + w)))
  {
  }

  lemma UnclosedText(key: string, w: string)
    requires AllPlain(key) && '"' !in w
    ensures ParseMembers(TextOpen(key) + w).None?
  {
    var s := TextOpen(key) + w;
    var value := "\"" + w;
    var colon := ":" + value;
    assert s[1..] == key + "\"" + colon;
    UntilQuoteFinds(key, colon);
    assert colon[1..] == value && value[1..] == w;
    UntilQuoteMisses(w);
  }

  lemma OtherStateWord(members: seq<Member>, w: string)
    requires |members| >= 2 && members[..2] == StateMembers(w)
    requires w != "idle" && w != "active"
    ensures Interpret(members) == RecoveryRequired
  {
    NamesDiffer();
    assert members[0] == StateMembers(w)[0] && members[1] == StateMembers(w)[1];
    assert Field(members, "state") == Field(members[1..], "state") == Some(Text(w));
  }

  lemma NoBraceNoParse(file: string)
    requires |file| >= 2 && file[|file| - 1] != '}'
    ensures Read(file) == RecoveryRequired
  {
    if ParseObject(file[1..]).Some? {
      ParsedEndsWithBrace(file[1..][1..]);
    }
  }

  // A word that is half one state and half the other.
  function Mixed(a: string, b: string, n: nat): string
    requires n <= |a| && n <= |b|
  {
    a[..n] + b[n..]
  }

  lemma MixedIsNeither(n: nat)
    requires 0 < n <= 4
    ensures var w := Mixed("active", "idle", n); AllPlain(w) && w != "idle" && w != "active"
    ensures var w := Mixed("idle", "active", n); AllPlain(w) && w != "idle" && w != "active"
  {
    var a, i := "active", "idle";
    assert a[0] == 'a' && i[0] == 'i';
    assert AllPlain(a) && AllPlain(i);
    assert |Mixed(a, i, n)| == 4 && Mixed(a, i, n)[0] == 'a';
    assert |Mixed(i, a, n)| == 6 && Mixed(i, a, n)[0] == 'i';
  }

  lemma ActiveText(j: Journal)
    requires WellFormed(j) && j.Active?
    ensures Encode(j) == Head() + "active" + Tail(j.owner, j.pid, j.started)
    ensures forall i :: 0 <= i < |Encode(j)| - 1 ==> Encode(j)[i] != '}'
    ensures |Encode(j)| > 28
  {
    EncodeFull("active", j.owner, j.pid, j.started);
    HeadLength();
    assert forall m :: m in Members(j) ==> Braceless(m) by { BracelessMembers(j); }
    BraceOnlyLast(Members(j));
    assert "{"[0] == '{';
  }

  predicate Braceless(m: Member) {
    '}' !in m.key && '}' !in m.value.text
  }

  lemma BracelessMembers(j: Journal)
    requires WellFormed(j) && j.Active?
    ensures forall m :: m in Members(j) ==> Braceless(m)
  {
    assert '}' !in j.owner;
    NumberChars(j.pid);
    NumberChars(j.started);
    assert '}' !in j.pid && '}' !in j.started;
    assert '}' !in "version" && '}' !in "1" && '}' !in "state" && '}' !in "active";
    assert '}' !in "owner" && '}' !in "supervisor_pid" && '}' !in "started_at";
  }

  lemma {:induction false} BraceOnlyLast(members: seq<Member>)
    requires members != [] && forall m :: m in members ==> Braceless(m)
    ensures var s := EncodeMembers(members); s != "" && '}' !in s[..|s| - 1]
  {
    var m := members[0];
    BracelessMember(m);
    if |members| == 1 {
      assert members == [m];
      var s := EncodeMember(m) + "}";
      assert s[..|s| - 1] == EncodeMember(m);
    } else {
      var rest := EncodeMembers(members[1..]);
      BraceOnlyLast(members[1..]);
      assert members == [m] + members[1..];
      EncodeCons(m, members[1..]);
      var s := EncodeMember(m) + ("," + rest);
      assert s[..|s| - 1] == EncodeMember(m) + ("," + rest[..|rest| - 1]);
    }
  }

  lemma BracelessMember(m: Member)
    requires Braceless(m)
    ensures '}' !in EncodeMember(m)
  {
  }

  // Bytes 1.. of a file overwritten from byte 1 on.
  lemma Overwritten(file: string, chunk: string)
    requires file != "" && chunk != ""
    ensures WriteAt(file, 1, chunk) != ""
    ensures WriteAt(file, 1, chunk)[1..]
         == chunk + (if |chunk| < |file| - 1 then file[1..][|chunk|..] else "")
    ensures WriteAt(file, 1, chunk)[0] == file[0]
  {
  }

  // An unfinished write that only repeated what was there changed nothing.
  lemma SamePrefix(file: string, chunk: string)
    requires file != "" && chunk <= file[1..]
    ensures WriteAt(file, 1, chunk) == file
  {
    if chunk != "" {
      assert file[1..1 + |chunk|] == chunk;
      assert WriteAt(file, 1, chunk) == file[..1] + chunk + file[1 + |chunk|..];
      assert file == file[..1] + file[1..1 + |chunk|] + file[1 + |chunk|..];
    }
  }

  // Where two texts with a common start differ in one word.
  lemma CutText(head: string, x: string, xs: string, y: string, ys: string, n: nat)
    requires n <= |x| && n <= |y|
    ensures (head + x + xs)[..|head| + n] + (head + y + ys)[|head| + n..] == head + (x[..n] + y[n..]) + ys
  {
  }

  // A write of `data` over `old`, stopped after m bytes, where both start with `head`.
  lemma AfterCut(file: string, old': string, data: string, head: string, m: nat)
    requires file != "" && file[1..] == old' && head <= old' && head <= data && m <= |data|
    ensures var after := WriteAt(file, 1, data[..m]);
            && (m <= |head| ==> after == file)
            && (m > 0 ==> after != "" && after[1..] == data[..m] + (if m < |old'| then old'[m..] else ""))
  {
    if m <= |head| {
      assert data[..m] == head[..m] == old'[..m];
      SamePrefix(file, data[..m]);
    }
    if m > 0 {
      Overwritten(file, data[..m]);
    }
  }

  lemma HeadOfActive(owner: string, pid: string, started: string)
    ensures Head() <= Head() + "active" + Tail(owner, pid, started)
  {
  }

  lemma HeadOfIdle()
    ensures Head() <= Head() + "idle" + "\"}" && |Head() + "idle" + "\"}"| == 28
  {
    HeadLength();
    assert |"idle" + "\"}"| == 6;
  }

  // Marking active over an idle journal, stopped after m bytes.
  lemma StoppedActivation(file: string, j: Journal, m: nat)
    requires Holds(file, Idle) && WellFormed(j) && j.Active? && m < |Encode(j)|
    ensures var after := WriteAt(file, 1, Encode(j)[..m]);
            after == file || Read(after) == RecoveryRequired
  {
    ActiveText(j);
    EncodeState("idle");
    HeadLength();
    HeadOfIdle();
    HeadOfActive(j.owner, j.pid, j.started);
    var idle, data := Head() + "idle" + "\"}", Encode(j);
    AfterCut(file, idle, data, Head(), m);
    if m > 22 {
      CutActivation(WriteAt(file, 1, data[..m]), j, data, m);
    }
  }

  lemma CutActivation(after: string, j: Journal, data: string, m: nat)
    requires WellFormed(j) && j.Active? && data == Head() + "active" + Tail(j.owner, j.pid, j.started)
    requires 22 < m < |data| && after != ""
    requires var idle := Head() + "idle" + "\"}"; after[1..] == data[..m] + (if m < |idle| then idle[m..] else "")
    requires forall i :: 0 <= i < |data| - 1 ==> data[i] != '}'
    ensures Read(after) == RecoveryRequired
  {
    HeadOfIdle();
    if m <= 26 {
      StoppedInActive(after, j, m - 22);
    } else if m == 27 {
      StoppedBeforeLastLetter(after, j);
    } else {
      StoppedPastOld(after, data, m);
    }
  }

  lemma StoppedBeforeLastLetter(after: string, j: Journal)
    requires WellFormed(j) && j.Active? && after != ""
    requires after[1..] == (Head() + "active" + Tail(j.owner, j.pid, j.started))[..27]
                           + (Head() + "idle" + "\"}")[27..]
    ensures Read(after) == RecoveryRequired
  {
    HeadLength();
    CutActive(Head(), Tail(j.owner, j.pid, j.started));
    ParseUnclosedState("activ}");
  }

  lemma StoppedPastOld(after: string, data: string, m: nat)
    requires 0 < m < |data| && after != "" && after[1..] == data[..m]
    requires forall i :: 0 <= i < |data| - 1 ==> data[i] != '}'
    ensures Read(after) == RecoveryRequired
  {
    assert after[|after| - 1] == after[1..][m - 1] == data[m - 1];
    NoBraceNoParse(after);
  }

  lemma CutActive(head: string, tail: string)
    ensures var data := head + "active" + tail; var n := |head| + 5;
            data[..n] + (head + "idle" + "\"}")[n..] == head + "activ}"
  {
    assert "active"[..5] == "activ";
    assert "idle\"}"[5..] == "}";
    var n := |head| + 5;
    assert (head + "active" + tail)[..n] == head + "active"[..5];
    assert head + "idle" + "\"}" == head + "idle\"}";
    assert (head + "idle\"}")[n..] == "idle\"}"[5..];
  }

  lemma StoppedInActive(after: string, j: Journal, n: nat)
    requires WellFormed(j) && j.Active? && 0 < n <= 4
    requires after != ""
    requires after[1..] == (Head() + "active" + Tail(j.owner, j.pid, j.started))[..22 + n]
                           + (Head() + "idle" + "\"}")[22 + n..]
    ensures Read(after) == RecoveryRequired
  {
    var w := Mixed("active", "idle", n);
    MixedIsNeither(n);
    HeadLength();
    CutText(Head(), "active", Tail(j.owner, j.pid, j.started), "idle", "\"}", n);
    ParseState(w, "}");
    assert "\"" + "}" == "\"}";
    OtherStateWord(StateMembers(w), w);
  }

  // Clearing an active journal, stopped after m bytes and before the truncation.
  lemma StoppedClearing(file: string, j: Journal, m: nat)
    requires Holds(file, j) && j.Active? && m <= |Encode(Idle)|
    ensures var after := WriteAt(file, 1, Encode(Idle)[..m]);
            after == file || Read(after) == RecoveryRequired
  {
    ActiveText(j);
    EncodeState("idle");
    HeadLength();
    HeadOfIdle();
    HeadOfActive(j.owner, j.pid, j.started);
    var idle, active := Encode(Idle), Encode(j);
    AfterCut(file, active, idle, Head(), m);
    if m > 22 {
      CutClearing(WriteAt(file, 1, idle[..m]), j, active, m);
    }
  }

  lemma CutClearing(after: string, j: Journal, active: string, m: nat)
    requires WellFormed(j) && j.Active? && active == Head() + "active" + Tail(j.owner, j.pid, j.started)
    requires 22 < m <= 28 < |active| && after != ""
    requires after[1..] == (Head() + "idle" + "\"}")[..m] + active[m..]
    ensures Read(after) == RecoveryRequired
  {
    HeadLength();
    if m <= 26 {
      StoppedInIdle(after, j, m - 22);
    } else {
      CutIdle(Head(), Tail(j.owner, j.pid, j.started));
      assert AllPlain("idle");
      ParseState("idle", (if m == 27 then "e" else "}") + Tail(j.owner, j.pid, j.started));
    }
  }

  lemma CutIdle(head: string, tail: string)
    ensures var data := head + "idle" + "\"}"; var was := head + "active" + tail; var n := |head| + 5;
            && data[..n] + was[n..] == head + "idle" + ("\"" + ("e" + tail))
            && data[..n + 1] + was[n + 1..] == head + "idle" + ("\"" + ("}" + tail))
  {
    var n := |head| + 5;
    assert head + "idle" + "\"}" == head + "idle\"}";
    assert "idle\"}"[..5] == "idle" + "\"";
    assert (head + "idle\"}")[..n] == head + "idle\"}"[..5];
    assert (head + "active" + tail)[n..] == "active"[5..] + tail;
    assert "active"[5..] == "e";
    assert (head + "active" + tail)[n + 1..] == tail;
    assert (head + "idle" + "\"}")[..n + 1] == head + "idle" + "\"}";
  }

  lemma StoppedInIdle(after: string, j: Journal, n: nat)
    requires WellFormed(j) && j.Active? && 0 < n <= 4
    requires after != ""
    requires after[1..] == (Head() + "idle" + "\"}")[..22 + n]
                           + (Head() + "active" + Tail(j.owner, j.pid, j.started))[22 + n..]
    ensures Read(after) == RecoveryRequired
  {
    var w := Mixed("idle", "active", n);
    MixedIsNeither(n);
    HeadLength();
    CutText(Head(), "idle", "\"}", "active", Tail(j.owner, j.pid, j.started), n);
    var ms := MembersOf(w, j.owner, j.pid, j.started);
    EncodeFull(w, j.owner, j.pid, j.started);
    CleanWithState(w, j);
    ParseEncoded(ms);
    assert ms[..2] == StateMembers(w);
    OtherStateWord(ms, w);
  }

  lemma CleanWithState(w: string, j: Journal)
    requires WellFormed(j) && j.Active? && AllPlain(w)
    ensures forall m :: m in MembersOf(w, j.owner, j.pid, j.started) ==> Clean(m)
  {
    CleanMembers(j);
    CleanVersion();
    forall m | m in MembersOf(w, j.owner, j.pid, j.started)
      ensures Clean(m)
    {
      assert m in Members(j) || m == Member("state", Text(w)) by {
        var i :| 0 <= i < 5 && MembersOf(w, j.owner, j.pid, j.started)[i] == m;
        if i != 1 { assert m == Members(j)[i]; }
      }
    }
  }

  // The very first write, onto an empty file.
  lemma StoppedCreation(j: Journal, m: nat)
    requires WellFormed(j) && j.Active? && m < |Encode(j)|
    ensures var after := WriteAt("", 1, Encode(j)[..m]);
            after == "" || Read(after) == RecoveryRequired
  {
    ActiveText(j);
    if m > 0 {
      CutCreation(Encode(j), m);
    }
  }

  lemma CutCreation(data: string, m: nat)
    requires 0 < m < |data| && forall i :: 0 <= i < |data| - 1 ==> data[i] != '}'
    ensures Read(WriteAt("", 1, data[..m])) == RecoveryRequired
  {
    StoppedPastOld(WriteAt("", 1, data[..m]), data, m);
  }

  // A write that got as far as the truncation leaves exactly the journal.
  lemma ReplacedHolds(file: string, j: Journal)
    requires WellFormed(j) && |Encode(j)| <= MAX_JOURNAL
    ensures Holds(Replaced(file, Encode(j)), j)
  {
    var data := Encode(j);
    assert data[0] == '{';
    var w := WriteAt(file, 1, data);
    assert w[1..1 + |data|] == data;
    assert Replaced(file, data)[1..] == data;
  }

  // Whatever a journal write does on its way from idle to active or back, what is
  // left reads as the old state, the new state or as needing recovery: never as
  // active under an owner that is neither.
  lemma CutWriteIsSafe(file: string, j: Journal, cut: Cut)
    requires Wholesome(file) && WellFormed(j)
    requires if j.Active? then Read(file) == IsIdle else Read(file).IsActive?
    ensures var after := Written(file, Encode(j), cut);
            || after == file
            || Holds(after, j)
            || Read(after) == RecoveryRequired
  {
    var data := Encode(j);
    if |data| <= MAX_JOURNAL {
      ReplacedHolds(file, j);
      if cut.Stopped? {
        StoppedIsSafe(file, j, if cut.written <= |data| then cut.written else |data|);
        assert data[..|data|] == data;
      }
    }
  }

  lemma StoppedIsSafe(file: string, j: Journal, m: nat)
    requires Wholesome(file) && WellFormed(j) && m <= |Encode(j)| <= MAX_JOURNAL
    requires if j.Active? then Read(file) == IsIdle else Read(file).IsActive?
    ensures var after := WriteAt(file, 1, Encode(j)[..m]);
            || after == file
            || Holds(after, j)
            || Read(after) == RecoveryRequired
  {
    if file == "" {
      if m < |Encode(j)| { StoppedCreation(j, m); } else { StoppedWhole(file, j, m); }
    } else {
      var was :| Holds(file, was);
      ReadHeld(file, was);
      if j.Idle? {
        StoppedClearing(file, was, m);
      } else if m < |Encode(j)| {
        StoppedActivation(file, j, m);
      } else {
        StoppedWhole(file, j, m);
      }
    }
  }

  lemma StoppedWhole(file: string, j: Journal, m: nat)
    requires WellFormed(j) && j.Active? && |Encode(j)| <= MAX_JOURNAL && m == |Encode(j)|
    requires file == "" || Holds(file, Idle)
    ensures Holds(WriteAt(file, 1, Encode(j)[..m]), j)
  {
    ActiveText(j);
    EncodeState("idle");
    HeadOfIdle();
    WholeWrite(file, Encode(j), m);
  }

  lemma WholeWrite(file: string, data: string, m: nat)
    requires m == |data| > 0 && |file| <= 1 + |data|
    ensures var after := WriteAt(file, 1, data[..m]); after != "" && after[1..] == data
  {
    assert data[..m] == data;
    if file != "" {
      Overwritten(file, data);
    }
  }

  lemma CutWriteIsWholesome(file: string, j: Journal, cut: Cut)
    requires Wholesome(file) && WellFormed(j)
    requires if j.Active? then Read(file) == IsIdle else Read(file).IsActive?
    ensures Wholesome(Written(file, Encode(j), cut))
  {
    CutWriteIsSafe(file, j, cut);
  }
}
