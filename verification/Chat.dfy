// The browser's fold of chat events into render rows. Missing and empty ids are None.
module Chat {
  import opened Common
  import Restore

  datatype Item =
    | Thinking(text: string, turnId: Option<string>)
    | Assistant(text: string, messageId: Option<string>, turnId: Option<string>)
    | Tool(tool: Option<string>, toolId: Option<string>, turnId: Option<string>, input: Option<string>,
           streaming: bool, result: Option<string>, isError: bool)
    | Turn(turnId: Option<string>, isError: bool, result: Option<string>)
    | User(text: string, local: bool, clientInputId: Option<string>)
    | Failure(text: string)

  datatype Event =
    | TurnStart(turnId: Option<string>)
    | ThinkingDelta(text: string, turnId: Option<string>)
    | StatusNote(note: string)
    | MessageDelta(text: string, messageId: Option<string>, turnId: Option<string>)
    | Message(text: string, final: bool)
    | ToolCall(tool: Option<string>, toolId: Option<string>, turnId: Option<string>, input: Option<string>, streaming: bool)
    | ToolResult(toolId: Option<string>, turnId: Option<string>, content: string, isError: bool)
    | PermissionAsk(requestId: string)
    | TurnEnd(turnId: Option<string>, status: string, isError: bool, result: Option<string>)
    | SessionConfig(options: map<string, string>)
    | UserEcho(text: string, clientInputId: Option<string>)
    | ErrorNote(message: string)
    | Unknown

  datatype RunState = RunState(state: string, turnId: Option<string>)

  // `open` is the row of the assistant bubble that collects deltas.
  datatype State = State(
    items: seq<Item>,
    open: Option<nat>,
    run: Option<RunState>,
    pendingPermission: Option<string>,
    status: Option<string>,
    config: map<string, string>,
    configured: bool)

  const INITIAL := State([], None, None, None, None, map[], false)

  // ---- Searching rows ----------------------------------------------------------------

  function FirstWhere(items: seq<Item>, p: Item -> bool, from: nat): (r: Option<nat>)
    requires from <= |items|
    ensures r.Some? ==> from <= r.value < |items| && p(items[r.value])
    ensures r.None? ==> forall i :: from <= i < |items| ==> !p(items[i])
    ensures r.Some? ==> forall i :: from <= i < r.value ==> !p(items[i])
    decreases |items| - from
  {
    if from == |items| then None
    else if p(items[from]) then Some(from)
    else FirstWhere(items, p, from + 1)
  }

  function LastWhere(items: seq<Item>, p: Item -> bool): (r: Option<nat>)
    ensures r.Some? ==> r.value < |items| && p(items[r.value])
    ensures r.None? ==> forall i :: 0 <= i < |items| ==> !p(items[i])
    ensures r.Some? ==> forall i :: r.value < i < |items| ==> !p(items[i])
  {
    if items == [] then None
    else if p(items[|items| - 1]) then Some(|items| - 1)
    else LastWhere(items[..|items| - 1], p)
  }

  // Whether the assistant said something since the last turn or user row.
  function Answered(items: seq<Item>): bool {
    if items == [] then false
    else
      var last := items[|items| - 1];
      if last.Turn? || last.User? then false
      else if last.Assistant? && last.text != "" then true
      else Answered(items[..|items| - 1])
  }

  predicate IsStream(item: Item, ev: Event)
    requires ev.MessageDelta?
  {
    item.Assistant? && item.messageId == ev.messageId && item.turnId == ev.turnId
  }

  predicate IsPendingTool(item: Item, toolId: Option<string>, turnId: Option<string>) {
    item.Tool? && item.toolId == toolId && item.result.None? && (turnId.None? || item.turnId == turnId)
  }

  predicate IsEchoed(item: Item, ev: Event)
    requires ev.UserEcho?
  {
    item.User?
    && if ev.clientInputId.Some? then item.clientInputId == ev.clientInputId
       else item.local && item.text == ev.text && item.clientInputId.None?
  }

  // ---- One event ------------------------------------------------------------------------

  function WithText(row: Item, text: string): Item
    requires row.Assistant?
  {
    Assistant(text, row.messageId, row.turnId)
  }

  function WithCall(row: Item, tool: Option<string>, input: Option<string>, streaming: bool): Item
    requires row.Tool?
  {
    Tool(if tool.Some? then tool else row.tool, row.toolId, row.turnId, if input.Some? then input else row.input,
         streaming, row.result, row.isError)
  }

  function WithResult(row: Item, content: string, isError: bool): Item
    requires row.Tool?
  {
    Tool(row.tool, row.toolId, row.turnId, row.input, row.streaming, Some(content), isError)
  }

  function Confirmed(row: Item): Item
    requires row.User?
  {
    User(row.text, false, row.clientInputId)
  }

  function Push(s: State, item: Item): State {
    s.(items := s.items + [item])
  }

  function AddThinking(s: State, text: string, turnId: Option<string>): State {
    var n := |s.items|;
    if n > 0 && s.items[n - 1].Thinking? && s.items[n - 1].turnId == turnId
    then s.(items := s.items[n - 1 := Thinking(s.items[n - 1].text + text, turnId)])
    else Push(s, Thinking(text, turnId))
  }

  function AddDelta(s: State, ev: Event): State
    requires ev.MessageDelta?
  {
    var target := if ev.messageId.Some? then FirstWhere(s.items, item => IsStream(item, ev), 0) else s.open;
    if target.None? then
      Push(s, Assistant(ev.text, ev.messageId, if ev.messageId.Some? then ev.turnId else None)).(open := Some(|s.items|))
    else if target.value < |s.items| && s.items[target.value].Assistant? then
      var row := s.items[target.value];
      s.(items := s.items[target.value := WithText(row, row.text + ev.text)])
    else s
  }

  function AddMessage(s: State, text: string): State {
    if text == "" then s
    else if s.open.None? then Push(s, Assistant(text, None, None))
    else if s.open.value < |s.items| && s.items[s.open.value].Assistant? && s.items[s.open.value].text == "" then
      s.(items := s.items[s.open.value := WithText(s.items[s.open.value], text)])
    else s
  }

  function AddCall(s: State, ev: Event): State
    requires ev.ToolCall?
  {
    var pending := if ev.toolId.None? then None
                   else LastWhere(s.items, item => IsPendingTool(item, ev.toolId, ev.turnId));
    if pending.Some? then
      var row := s.items[pending.value];
      s.(items := s.items[pending.value := WithCall(row, ev.tool, ev.input, ev.streaming)])
    else Push(s, Tool(ev.tool, ev.toolId, ev.turnId, ev.input, ev.streaming, None, false))
  }

  function AddResult(s: State, ev: Event): State
    requires ev.ToolResult?
  {
    var matched := LastWhere(s.items, item => IsPendingTool(item, ev.toolId, ev.turnId));
    if matched.Some? then
      s.(items := s.items[matched.value := WithResult(s.items[matched.value], ev.content, ev.isError)])
    else Push(s, Tool(None, ev.toolId, ev.turnId, None, false, Some(ev.content), ev.isError))
  }

  predicate EndsAlready(items: seq<Item>, turnId: Option<string>) {
    || (turnId.Some? && exists i :: 0 <= i < |items| && items[i].Turn? && items[i].turnId == turnId)
    || (items != [] && items[|items| - 1].Turn?)
  }

  function EndTurn(s: State, ev: Event): State
    requires ev.TurnEnd?
  {
    var run := if ev.turnId.Some? || s.run.Some? then Some(RunState(ev.status, ev.turnId)) else None;
    var t := s.(open := None, run := run);
    if EndsAlready(s.items, ev.turnId) then t
    else Push(t, Turn(ev.turnId, ev.isError, if Answered(s.items) then None else ev.result))
  }

  function AddEcho(s: State, ev: Event): State
    requires ev.UserEcho?
  {
    var local := if ev.clientInputId.Some? then FirstWhere(s.items, item => IsEchoed(item, ev), 0)
                 else LastWhere(s.items, item => IsEchoed(item, ev));
    if local.Some? then s.(items := s.items[local.value := Confirmed(s.items[local.value])])
    else Push(s, User(ev.text, false, ev.clientInputId))
  }

  function Applied(s: State, ev: Event): State {
    match ev
    case TurnStart(turnId) => s.(open := None, run := Some(RunState("running", turnId)))
    case ThinkingDelta(text, turnId) => AddThinking(s, text, turnId)
    case StatusNote(note) => s.(status := Some(note))
    case MessageDelta(_, _, _) => AddDelta(s, ev)
    case Message(text, final) => if final then AddMessage(s, text).(open := None) else AddMessage(s, text)
    case ToolCall(_, _, _, _, _) => AddCall(s.(open := None), ev)
    case ToolResult(_, _, _, _) => AddResult(s, ev)
    case PermissionAsk(requestId) => s.(pendingPermission := Some(requestId))
    case TurnEnd(_, _, _, _) => EndTurn(s, ev)
    case SessionConfig(options) => s.(config := options, configured := true)
    case UserEcho(_, _) => AddEcho(s, ev)
    case ErrorNote(message) => Push(s, Failure(message))
    case Unknown => s
  }

  function Fold(s: State, events: seq<Event>): State
    decreases |events|
  {
    if events == [] then s else Fold(Applied(s, events[0]), events[1..])
  }

  function FoldPayload(codec: Restore.Codec<Event>, s: State, payload: string): State {
    Fold(s, Restore.Parse(codec, payload))
  }

  // The optimistic row of the user's own turn.
  function AppendUserTurn(s: State, text: string, clientInputId: Option<string>): State {
    Push(s.(open := None), User(text, true, clientInputId))
  }

  // ---- The view model, updated in place ---------------------------------------------------

  class View {
    var state: State

    constructor ()
      ensures state == INITIAL
    {
      state := INITIAL;
    }

    method FindLast(p: Item -> bool) returns (found: Option<nat>)
      ensures found == LastWhere(state.items, p)
    {
      var i := |state.items|;
      assert state.items[..i] == state.items;
      while i > 0
        invariant 0 <= i <= |state.items|
        invariant LastWhere(state.items, p) == LastWhere(state.items[..i], p)
      {
        i := i - 1;
        assert state.items[..i + 1][..i] == state.items[..i];
        if p(state.items[i]) {
          return Some(i);
        }
      }
      found := None;
    }

    method HasAnswer() returns (answered: bool)
      ensures answered == Answered(state.items)
    {
      var i := |state.items|;
      assert state.items[..i] == state.items;
      while i > 0
        invariant 0 <= i <= |state.items|
        invariant Answered(state.items) == Answered(state.items[..i])
      {
        i := i - 1;
        assert state.items[..i + 1][..i] == state.items[..i];
        var item := state.items[i];
        if item.Turn? || item.User? {
          return false;
        }
        if item.Assistant? && item.text != "" {
          return true;
        }
      }
      answered := false;
    }

    method FindFirst(p: Item -> bool) returns (found: Option<nat>)
      ensures found == FirstWhere(state.items, p, 0)
    {
      for i := 0 to |state.items|
        invariant FirstWhere(state.items, p, 0) == FirstWhere(state.items, p, i)
      {
        if p(state.items[i]) {
          return Some(i);
        }
      }
      found := None;
    }

    method SetRow(i: nat, row: Item)
      requires i < |state.items|
      modifies this
      ensures state == old(state).(items := old(state).items[i := row])
    {
      state := state.(items := state.items[i := row]);
    }

    method PushRow(row: Item)
      modifies this
      ensures state == Push(old(state), row)
    {
      state := state.(items := state.items + [row]);
    }

    method ApplyText(ev: Event)
      requires ev.ThinkingDelta? || ev.MessageDelta? || ev.Message?
      modifies this
      ensures state == Applied(old(state), ev)
    {
      match ev
      case ThinkingDelta(text, turnId) =>
        var n := |state.items|;
        if n > 0 && state.items[n - 1].Thinking? && state.items[n - 1].turnId == turnId {
          SetRow(n - 1, Thinking(state.items[n - 1].text + text, turnId));
        } else {
          PushRow(Thinking(text, turnId));
        }
      case MessageDelta(text, messageId, turnId) =>
        var target := state.open;
        if messageId.Some? {
          target := FindFirst(item => IsStream(item, ev));
        }
        if target.None? {
          PushRow(Assistant(text, messageId, if messageId.Some? then turnId else None));
          state := state.(open := Some(|state.items| - 1));
        } else if target.value < |state.items| && state.items[target.value].Assistant? {
          SetRow(target.value, WithText(state.items[target.value], state.items[target.value].text + text));
        }
      case Message(text, final) =>
        if text != "" {
          if state.open.None? {
            PushRow(Assistant(text, None, None));
          } else if state.open.value < |state.items| && state.items[state.open.value].Assistant?
                    && state.items[state.open.value].text == "" {
            SetRow(state.open.value, WithText(state.items[state.open.value], text));
          }
        }
        if final {
          state := state.(open := None);
        }
    }

    method ApplyTool(ev: Event)
      requires ev.ToolCall? || ev.ToolResult?
      modifies this
      ensures state == Applied(old(state), ev)
    {
      match ev
      case ToolCall(tool, toolId, turnId, input, streaming) =>
        state := state.(open := None);
        var pending := None;
        if toolId.Some? {
          pending := FindLast(item => IsPendingTool(item, ev.toolId, ev.turnId));
        }
        if pending.Some? {
          SetRow(pending.value, WithCall(state.items[pending.value], tool, input, streaming));
        } else {
          PushRow(Tool(tool, toolId, turnId, input, streaming, None, false));
        }
      case ToolResult(toolId, turnId, content, isError) =>
        var matched := FindLast(item => IsPendingTool(item, ev.toolId, ev.turnId));
        if matched.Some? {
          SetRow(matched.value, WithResult(state.items[matched.value], content, isError));
        } else {
          PushRow(Tool(None, toolId, turnId, None, false, Some(content), isError));
        }
    }

    method ApplyTurnEnd(ev: Event)
      requires ev.TurnEnd?
      modifies this
      ensures state == Applied(old(state), ev)
    {
      state := state.(open := None, run := if ev.turnId.Some? || state.run.Some? then Some(RunState(ev.status, ev.turnId)) else None);
      if ev.turnId.Some? {
        var same := FindFirst((item: Item) => item.Turn? && item.turnId == ev.turnId);
        if same.Some? {
          return;
        }
      }
      if state.items != [] && state.items[|state.items| - 1].Turn? {
        return;
      }
      var answered := HasAnswer();
      PushRow(Turn(ev.turnId, ev.isError, if answered then None else ev.result));
    }

    method ApplyEcho(ev: Event)
      requires ev.UserEcho?
      modifies this
      ensures state == Applied(old(state), ev)
    {
      var local;
      if ev.clientInputId.Some? {
        local := FindFirst(item => IsEchoed(item, ev));
      } else {
        local := FindLast(item => IsEchoed(item, ev));
      }
      if local.Some? {
        SetRow(local.value, Confirmed(state.items[local.value]));
      } else {
        PushRow(User(ev.text, false, ev.clientInputId));
      }
    }

    method Apply(ev: Event)
      modifies this
      ensures state == Applied(old(state), ev)
    {
      match ev
      case TurnStart(turnId) => state := state.(open := None, run := Some(RunState("running", turnId)));
      case StatusNote(note) => state := state.(status := Some(note));
      case ThinkingDelta(_, _) => ApplyText(ev);
      case MessageDelta(_, _, _) => ApplyText(ev);
      case Message(_, _) => ApplyText(ev);
      case ToolCall(_, _, _, _, _) => ApplyTool(ev);
      case ToolResult(_, _, _, _) => ApplyTool(ev);
      case PermissionAsk(requestId) => state := state.(pendingPermission := Some(requestId));
      case TurnEnd(_, _, _, _) => ApplyTurnEnd(ev);
      case SessionConfig(options) => state := state.(config := options, configured := true);
      case UserEcho(_, _) => ApplyEcho(ev);
      case ErrorNote(message) => PushRow(Failure(message));
      case Unknown =>
    }

    method FoldEvents(events: seq<Event>, replace: bool)
      modifies this
      ensures state == Fold(if replace then INITIAL else old(state), events)
    {
      if replace {
        state := INITIAL;
      }
      ghost var start := state;
      assert events[0..] == events;
      for i := 0 to |events|
        invariant Fold(start, events) == Fold(state, events[i..])
      {
        assert events[i..][1..] == events[i + 1..];
        Apply(events[i]);
      }
    }
  }

  // ---- Folding in pieces --------------------------------------------------------------------

  lemma {:induction false} FoldConcat(s: State, a: seq<Event>, b: seq<Event>)
    ensures Fold(s, a + b) == Fold(Fold(s, a), b)
    decreases |a|
  {
    if a == [] {
      assert a + b == b;
    } else {
      assert (a + b)[1..] == a[1..] + b;
      FoldConcat(Applied(s, a[0]), a[1..], b);
    }
  }

  // Folding two payloads one after the other is folding both at once.
  lemma FoldPayloadConcat(codec: Restore.Codec<Event>, s: State, a: string, b: string)
    ensures FoldPayload(codec, s, a + "\n" + b) == FoldPayload(codec, FoldPayload(codec, s, a), b)
  {
    Restore.ParseConcat(codec, a, b);
    FoldConcat(s, Restore.Parse(codec, a), Restore.Parse(codec, b));
  }

  // A restored tail folds to what its events fold to, if the browser reads them back.
  lemma RestoredFold(codec: Restore.Codec<Event>, events: seq<Event>)
    requires codec.Lawful() && Restore.RoundTrips(codec, events)
    ensures FoldPayload(codec, INITIAL, Restore.Join(Restore.Dumped(codec, events))) == Fold(INITIAL, events)
  {
    Restore.RestoreRoundTrip(codec, events);
  }

  // ---- Invariants ------------------------------------------------------------------------------

  ghost predicate OpenOk(s: State) {
    s.open.Some? ==> s.open.value < |s.items| && s.items[s.open.value].Assistant?
  }

  // Turn rows are never neighbors and never share a turn id.
  ghost predicate TurnsOk(items: seq<Item>) {
    && (forall i :: 0 < i < |items| ==> !(items[i - 1].Turn? && items[i].Turn?))
    && (forall i, j :: 0 <= i < j < |items| && items[i].Turn? && items[j].Turn? && items[i].turnId.Some? ==>
          items[i].turnId != items[j].turnId)
  }

  // Rows stay where they are and what they are.
  ghost predicate SameRow(a: Item, b: Item) {
    || (a.Thinking? && b.Thinking? && a.turnId == b.turnId && a.text <= b.text)
    || (a.Assistant? && b.Assistant? && a.messageId == b.messageId && a.turnId == b.turnId && a.text <= b.text)
    || (a.Tool? && b.Tool? && a.toolId == b.toolId && a.turnId == b.turnId && (a.result.Some? ==> b.result == a.result))
    || (a.User? && b.User? && a.text == b.text && a.clientInputId == b.clientInputId)
    || a == b
  }

  ghost predicate Grows(a: seq<Item>, b: seq<Item>) {
    |a| <= |b| && forall i :: 0 <= i < |a| ==> SameRow(a[i], b[i])
  }

  ghost predicate Inv(s: State) {
    OpenOk(s) && TurnsOk(s.items)
  }

  // Replacing one row by itself, changed, keeps the turn rows.
  lemma ChangeRow(items: seq<Item>, i: nat, row: Item)
    requires TurnsOk(items) && i < |items| && SameRow(items[i], row) && !items[i].Turn? && !row.Turn?
    ensures TurnsOk(items[i := row]) && Grows(items, items[i := row])
  {
  }

  lemma PushRow(items: seq<Item>, row: Item)
    requires TurnsOk(items)
    requires row.Turn? ==> !EndsAlready(items, row.turnId)
    ensures TurnsOk(items + [row]) && Grows(items, items + [row])
  {
  }

  // Every event keeps the open bubble an assistant row, keeps every earlier row in
  // place, and keeps one row per turn end.
  lemma AppliedInv(s: State, ev: Event)
    requires Inv(s)
    ensures Inv(Applied(s, ev)) && Grows(s.items, Applied(s, ev).items)
  {
    match ev
    case ThinkingDelta(text, turnId) => ThinkingInv(s, text, turnId);
    case MessageDelta(text, messageId, turnId) => DeltaInv(s, ev);
    case Message(text, final) => MessageInv(s, text);
    case ToolCall(_, _, _, _, _) => CallInv(s.(open := None), ev);
    case ToolResult(_, _, _, _) => ResultInv(s, ev);
    case TurnEnd(_, _, _, _) => EndInv(s, ev);
    case UserEcho(_, _) => EchoInv(s, ev);
    case ErrorNote(message) => PushRow(s.items, Failure(message));
    case _ =>
  }

  lemma ThinkingInv(s: State, text: string, turnId: Option<string>)
    requires Inv(s)
    ensures Inv(AddThinking(s, text, turnId)) && Grows(s.items, AddThinking(s, text, turnId).items)
  {
    var n := |s.items|;
    if n > 0 && s.items[n - 1].Thinking? && s.items[n - 1].turnId == turnId {
      ChangeRow(s.items, n - 1, Thinking(s.items[n - 1].text + text, turnId));
    } else {
      PushRow(s.items, Thinking(text, turnId));
    }
  }

  lemma MessageInv(s: State, text: string)
    requires Inv(s)
    ensures Inv(AddMessage(s, text)) && Grows(s.items, AddMessage(s, text).items)
  {
    if s.open.None? {
      PushRow(s.items, Assistant(text, None, None));
    } else if s.items[s.open.value].text == "" {
      ChangeRow(s.items, s.open.value, WithText(s.items[s.open.value], text));
    }
  }

  lemma EndInv(s: State, ev: Event)
    requires Inv(s) && ev.TurnEnd?
    ensures Inv(EndTurn(s, ev)) && Grows(s.items, EndTurn(s, ev).items)
  {
    if !EndsAlready(s.items, ev.turnId) {
      PushRow(s.items, Turn(ev.turnId, ev.isError, if Answered(s.items) then None else ev.result));
    }
  }

  lemma DeltaInv(s: State, ev: Event)
    requires Inv(s) && ev.MessageDelta?
    ensures Inv(AddDelta(s, ev)) && Grows(s.items, AddDelta(s, ev).items)
  {
    var target := if ev.messageId.Some? then FirstWhere(s.items, item => IsStream(item, ev), 0) else s.open;
    if target.Some? {
      var row := s.items[target.value];
      ChangeRow(s.items, target.value, WithText(row, row.text + ev.text));
    } else {
      PushRow(s.items, Assistant(ev.text, ev.messageId, if ev.messageId.Some? then ev.turnId else None));
    }
  }

  lemma CallInv(s: State, ev: Event)
    requires Inv(s) && ev.ToolCall?
    ensures Inv(AddCall(s, ev)) && Grows(s.items, AddCall(s, ev).items)
  {
    var pending := if ev.toolId.None? then None
                   else LastWhere(s.items, item => IsPendingTool(item, ev.toolId, ev.turnId));
    if pending.Some? {
      var row := s.items[pending.value];
      ChangeRow(s.items, pending.value, WithCall(row, ev.tool, ev.input, ev.streaming));
    } else {
      PushRow(s.items, Tool(ev.tool, ev.toolId, ev.turnId, ev.input, ev.streaming, None, false));
    }
  }

  lemma ResultInv(s: State, ev: Event)
    requires Inv(s) && ev.ToolResult?
    ensures Inv(AddResult(s, ev)) && Grows(s.items, AddResult(s, ev).items)
  {
    var matched := LastWhere(s.items, item => IsPendingTool(item, ev.toolId, ev.turnId));
    if matched.Some? {
      var row := s.items[matched.value];
      ChangeRow(s.items, matched.value, WithResult(row, ev.content, ev.isError));
    } else {
      PushRow(s.items, Tool(None, ev.toolId, ev.turnId, None, false, Some(ev.content), ev.isError));
    }
  }

  lemma EchoInv(s: State, ev: Event)
    requires Inv(s) && ev.UserEcho?
    ensures Inv(AddEcho(s, ev)) && Grows(s.items, AddEcho(s, ev).items)
  {
    var local := if ev.clientInputId.Some? then FirstWhere(s.items, item => IsEchoed(item, ev), 0)
                 else LastWhere(s.items, item => IsEchoed(item, ev));
    if local.Some? {
      ChangeRow(s.items, local.value, Confirmed(s.items[local.value]));
    } else {
      PushRow(s.items, User(ev.text, false, ev.clientInputId));
    }
  }

  lemma {:induction false} FoldInv(s: State, events: seq<Event>)
    requires Inv(s)
    ensures Inv(Fold(s, events)) && Grows(s.items, Fold(s, events).items)
    decreases |events|
  {
    if events != [] {
      AppliedInv(s, events[0]);
      FoldInv(Applied(s, events[0]), events[1..]);
      GrowsOn(s.items, Applied(s, events[0]).items, Fold(s, events).items);
    }
  }

  lemma GrowsOn(a: seq<Item>, b: seq<Item>, c: seq<Item>)
    requires Grows(a, b) && Grows(b, c)
    ensures Grows(a, c)
  {
    forall i | 0 <= i < |a|
      ensures SameRow(a[i], c[i])
    {
      assert SameRow(a[i], b[i]) && SameRow(b[i], c[i]);
    }
  }

  // Whatever payload arrives, from the start on: the open bubble is null or an
  // assistant row, and turn rows stay single.
  lemma FoldedPayloadInv(codec: Restore.Codec<Event>, payload: string)
    ensures Inv(FoldPayload(codec, INITIAL, payload))
  {
    FoldInv(INITIAL, Restore.Parse(codec, payload));
  }

  // What changes a conversation: an event that arrives, or a turn typed here and shown
  // before its echo.
  datatype Change = Arrives(event: Event) | Typed(text: string, clientInputId: Option<string>)

  function Changed(s: State, change: Change): State {
    match change
    case Arrives(event) => Applied(s, event)
    case Typed(text, clientInputId) => AppendUserTurn(s, text, clientInputId)
  }

  function ChangedAll(s: State, changes: seq<Change>): State
    decreases |changes|
  {
    if changes == [] then s else ChangedAll(Changed(s, changes[0]), changes[1..])
  }

  // The same under any interleaving of events and typed turns; no row is dropped or
  // moved on the way.
  lemma {:induction false} InterleavedInv(s: State, changes: seq<Change>)
    requires Inv(s)
    ensures Inv(ChangedAll(s, changes)) && Grows(s.items, ChangedAll(s, changes).items)
    decreases |changes|
  {
    if changes != [] {
      var t := Changed(s, changes[0]);
      match changes[0] {
        case Arrives(event) => AppliedInv(s, event);
        case Typed(text, clientInputId) => PushRow(s.items, User(text, true, clientInputId));
      }
      InterleavedInv(t, changes[1..]);
      GrowsOn(s.items, t.items, ChangedAll(s, changes).items);
    }
  }

  // The end of a turn that arrives twice counts once.
  lemma TurnEndTwice(s: State, ev: Event)
    requires ev.TurnEnd?
    ensures Applied(Applied(s, ev), ev) == Applied(s, ev)
  {
    var t := EndTurn(s, ev);
    if !EndsAlready(s.items, ev.turnId) {
      assert t.items[|s.items|].Turn?;
    }
  }

  // The echo of an optimistic turn confirms that row instead of adding another.
  lemma EchoConfirms(s: State, text: string, clientInputId: Option<string>)
    requires clientInputId.Some? ==> forall i :: 0 <= i < |s.items| && s.items[i].User? ==>
               s.items[i].clientInputId != clientInputId
    ensures Applied(AppendUserTurn(s, text, clientInputId), UserEcho(text, clientInputId)).items
         == s.items + [User(text, false, clientInputId)]
  {
    var t := AppendUserTurn(s, text, clientInputId);
    var ev := UserEcho(text, clientInputId);
    assert IsEchoed(t.items[|s.items|], ev);
    if clientInputId.Some? {
      var found := FirstWhere(t.items, item => IsEchoed(item, ev), 0);
      assert forall i :: 0 <= i < |s.items| ==> !IsEchoed(t.items[i], ev);
    }
  }
}
