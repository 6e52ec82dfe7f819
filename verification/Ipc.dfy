// The framing of the channel between supervisor and transport: the text a delivery is
// sent as, its size, and which rows are too large to be sent at all.
module Ipc {
  import opened Common
  import Spool

  // Bytes of one encoded frame, its newline included.
  const MAX_FRAME := 1048576

  // ---- The text of a delivery -------------------------------------------------------

  function HexDigit(n: nat): char
    requires n < 16
  {
    "0123456789abcdef"[n]
  }

  // A UTF-16 code unit as \uXXXX.
  function Unit(n: nat): string
    requires n < 0x10000
  {
    "\\u" + [HexDigit(n / 4096), HexDigit(n / 256 % 16), HexDigit(n / 16 % 16), HexDigit(n % 16)]
  }

  // The escapes of two characters.
  predicate Short(c: char) {
    c == '"' || c == '\\' || c == '\n' || c == '\r' || c == '\t' || c == '\U{0C}' || c == '\U{08}'
  }

  function ShortEscape(c: char): string
    requires Short(c)
  {
    match c
    case '"' => "\\\""
    case '\\' => "\\\\"
    case '\n' => "\\n"
    case '\r' => "\\r"
    case '\t' => "\\t"
    case _ => if c == '\U{0C}' then "\\f" else "\\b"
  }

  // Everything but printable ASCII is escaped, above the basic plane as two units.
  function Escape(c: char): string {
    if Short(c) then ShortEscape(c)
    else if ' ' <= c <= '~' then [c]
    else if c as int < 0x10000 then Unit(c as int)
    else Unit(0xD800 + (c as int - 0x10000) / 1024) + Unit(0xDC00 + c as int % 1024)
  }

  function Escaped(s: string): string {
    if s == [] then [] else Escape(s[0]) + Escaped(s[1..])
  }

  function Decimal(n: nat): string {
    if n < 10 then [HexDigit(n)] else Decimal(n / 10) + [HexDigit(n % 10)]
  }

  // An output frame; `kind` is there for structured events only. The keys of a frame
  // that comes from the disk are sorted, which changes no size.
  function FrameText(f: Frame, num: nat): string {
    "{\"type\":\"output\",\"agent_id\":\"" + Escaped(f.agentId)
    + "\",\"session_id\":\"" + Escaped(f.sid)
    + "\",\"pty_instance_id\":\"" + Escaped(f.pid)
    + "\",\"data\":\"" + Escaped(f.data)
    + (if f.kind == "" then "" else "\",\"kind\":\"" + Escaped(f.kind))
    + "\",\"seq\":" + Decimal(num) + "}"
  }

  function DeliveryText(f: Frame, num: nat, ord: nat): string {
    "{\"type\":\"ipc_delivery\",\"delivery_id\":" + Decimal(ord) + ",\"frame\":" + FrameText(f, num) + "}\n"
  }

  // What `send` puts on the channel, or its refusal.
  function EncodeDelivery(r: Spool.Row): (e: Result<string>)
    ensures e.Ok? <==> Deliverable(r)
    ensures e.Ok? ==> e.value == DeliveryText(r.frame, r.num, r.ord) && |e.value| <= MAX_FRAME
  {
    DeliveryTextSize(r.frame, r.num, r.ord);
    var text := DeliveryText(r.frame, r.num, r.ord);
    if |text| > MAX_FRAME then Err("frame too large") else Ok(text)
  }

  // ---- Its size -------------------------------------------------------------------------

  function CharSize(c: char): nat {
    if Short(c) then 2
    else if ' ' <= c <= '~' then 1
    else if c as int < 0x10000 then 6
    else 12
  }

  function TextSize(s: string): nat {
    if s == [] then 0 else CharSize(s[0]) + TextSize(s[1..])
  }

  function Digits(n: nat): nat {
    if n < 10 then 1 else Digits(n / 10) + 1
  }

  const FRAME_SIZE := 85
  const KIND_SIZE := 10
  const WRAPPER_SIZE := 48

  function DeliverySize(f: Frame, num: nat, ord: nat): nat {
    WRAPPER_SIZE + Digits(ord) + FRAME_SIZE + Digits(num)
    + TextSize(f.agentId) + TextSize(f.sid) + TextSize(f.pid) + TextSize(f.data)
    + (if f.kind == "" then 0 else KIND_SIZE + TextSize(f.kind))
  }

  predicate Deliverable(r: Spool.Row) {
    DeliverySize(r.frame, r.num, r.ord) <= MAX_FRAME
  }

  lemma {:induction false} EscapedSize(s: string)
    ensures |Escaped(s)| == TextSize(s)
  {
    if s != [] {
      EscapedSize(s[1..]);
    }
  }

  lemma {:induction false} DecimalSize(n: nat)
    ensures |Decimal(n)| == Digits(n)
  {
    if n >= 10 {
      DecimalSize(n / 10);
    }
  }

  lemma FrameTextSize(f: Frame, num: nat)
    ensures |FrameText(f, num)| == FRAME_SIZE + Digits(num)
              + TextSize(f.agentId) + TextSize(f.sid) + TextSize(f.pid) + TextSize(f.data)
              + (if f.kind == "" then 0 else KIND_SIZE + TextSize(f.kind))
  {
    EscapedSize(f.agentId);
    EscapedSize(f.sid);
    EscapedSize(f.pid);
    EscapedSize(f.data);
    EscapedSize(f.kind);
    DecimalSize(num);
  }

  lemma DeliveryTextSize(f: Frame, num: nat, ord: nat)
    ensures |DeliveryText(f, num, ord)| == DeliverySize(f, num, ord)
  {
    FrameTextSize(f, num);
    DecimalSize(ord);
  }

  // ---- Against the server's bound ---------------------------------------------------------

  // No character is shorter in JSON than in UTF-8.
  lemma {:induction false} Utf8NotLonger(s: string)
    ensures Utf8Size(s) <= TextSize(s)
  {
    if s != [] {
      Utf8NotLonger(s[1..]);
    }
  }

  // So whatever can be sent is small enough for the server.
  lemma DeliverableIsAdmissible(r: Spool.Row)
    requires Deliverable(r)
    ensures Utf8Size(r.frame.data) < MAX_DATA_BYTES
  {
    Utf8NotLonger(r.frame.data);
  }

  lemma {:induction false} UniformSize(c: char, n: nat)
    ensures TextSize(seq(n, _ => c)) == n * CharSize(c)
    ensures (c as int) < 0x80 ==> Utf8Size(seq(n, _ => c)) == n
    decreases n
  {
    if n > 0 {
      assert seq(n, _ => c)[1..] == seq(n - 1, _ => c);
      UniformSize(c, n - 1);
    }
  }

  // The converse fails, by the wrapper and by the escapes: 1048570 plain characters, or
  // 600000 quotes, are small enough for the server and can never be sent.
  lemma AdmissibleNotDeliverable(r: Spool.Row)
    requires r.frame.data == seq(1048570, _ => 'a') || r.frame.data == seq(600000, _ => '"')
    ensures Utf8Size(r.frame.data) <= MAX_DATA_BYTES && !Deliverable(r)
  {
    UniformSize('a', 1048570);
    UniformSize('"', 600000);
  }

  // ---- Short frames ---------------------------------------------------------------------------

  lemma {:induction false} TextBound(s: string)
    ensures TextSize(s) <= 12 * |s|
  {
    if s != [] {
      TextBound(s[1..]);
    }
  }

  lemma {:induction false} DigitsBound(n: nat)
    ensures Digits(n) <= n + 1
  {
    if n >= 10 {
      DigitsBound(n / 10);
    }
  }

  lemma ShortIsDeliverable(r: Spool.Row)
    requires |r.frame.agentId| + |r.frame.sid| + |r.frame.pid| + |r.frame.data| + |r.frame.kind| <= 80000
    requires r.num <= 1000 && r.ord <= 1000
    ensures Deliverable(r)
  {
    TextBound(r.frame.agentId);
    TextBound(r.frame.sid);
    TextBound(r.frame.pid);
    TextBound(r.frame.data);
    TextBound(r.frame.kind);
    DigitsBound(r.num);
    DigitsBound(r.ord);
  }
}
