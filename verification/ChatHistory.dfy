// What the rows of a folded chat say, in terms of the events and typed turns that came.
module ChatHistory {
  import opened Common
  import opened Chat
  import Restore

  // ---- What one change does to the rows ---------------------------------------------------

  // An assistant row that collects the deltas of this message and turn.
  predicate Collects(row: Item, messageId: Option<string>, turnId: Option<string>) {
    row.Assistant? && row.messageId == messageId && row.turnId == turnId
  }

  // A tool row without a result yet, under this tool id and, if one is given, turn.
  predicate Awaits(row: Item, toolId: Option<string>, turnId: Option<string>) {
    row.Tool? && row.toolId == toolId && row.result.None? && (turnId.Some? ==> row.turnId == turnId)
  }

  // A user row that an echo is about: the one with its input id, or without one a typed
  // row of that text that is not confirmed yet.
  predicate EchoOf(row: Item, text: string, inputId: Option<string>) {
    row.User? && row.clientInputId == inputId && (inputId.None? ==> row.local && row.text == text)
  }

  ghost predicate First(items: seq<Item>, i: nat, p: Item -> bool) {
    i < |items| && p(items[i]) && forall j :: 0 <= j < i ==> !p(items[j])
  }

  ghost predicate Latest(items: seq<Item>, i: nat, p: Item -> bool) {
    i < |items| && p(items[i]) && forall j :: i < j < |items| ==> !p(items[j])
  }

  ghost predicate Nowhere(items: seq<Item>, p: Item -> bool) {
    forall j :: 0 <= j < |items| ==> !p(items[j])
  }

  ghost predicate EndsWith(items: seq<Item>, p: Item -> bool) {
    items != [] && p(items[|items| - 1])
  }

  // The assistant said something since the last turn or user row.
  ghost predicate SaidSomething(items: seq<Item>) {
    exists j :: SaidAt(items, j)
  }

  // Row j is assistant text with no turn or user row after it.
  ghost predicate SaidAt(items: seq<Item>, j: nat) {
    j < |items| && items[j].Assistant? && items[j].text != ""
    && forall m :: j < m < |items| ==> !items[m].Turn? && !items[m].User?
  }

  // The change adds this row at the end.
  ghost predicate AddsRow(s: State, c: Change, row: Item) {
    match c
    case Typed(text, inputId) => row == User(text, true, inputId)
    case Arrives(ThinkingDelta(text, turnId)) =>
      !EndsWith(s.items, (r: Item) => r.Thinking? && r.turnId == turnId) && row == Thinking(text, turnId)
    case Arrives(MessageDelta(text, messageId, turnId)) =>
      if messageId.Some?
      then Nowhere(s.items, (r: Item) => Collects(r, messageId, turnId)) && row == Assistant(text, messageId, turnId)
      else s.open.None? && row == Assistant(text, None, None)
    case Arrives(Message(text, _)) => text != "" && s.open.None? && row == Assistant(text, None, None)
    case Arrives(ToolCall(tool, toolId, turnId, input, streaming)) =>
      (toolId.None? || Nowhere(s.items, (r: Item) => Awaits(r, toolId, turnId)))
      && row == Tool(tool, toolId, turnId, input, streaming, None, false)
    case Arrives(ToolResult(toolId, turnId, content, isError)) =>
      Nowhere(s.items, (r: Item) => Awaits(r, toolId, turnId))
      && row == Tool(None, toolId, turnId, None, false, Some(content), isError)
    case Arrives(TurnEnd(turnId, _, isError, result)) =>
      !EndsWith(s.items, (r: Item) => r.Turn?) && (turnId.Some? ==> Nowhere(s.items, (r: Item) => r.Turn? && r.turnId == turnId))
      && row == Turn(turnId, isError, if SaidSomething(s.items) then None else result)
    case Arrives(UserEcho(text, inputId)) =>
      Nowhere(s.items, (r: Item) => EchoOf(r, text, inputId)) && row == User(text, false, inputId)
    case Arrives(ErrorNote(message)) => row == Failure(message)
    case _ => false
  }

  // The change rewrites row i to this one.
  ghost predicate Rewrites(s: State, c: Change, i: nat, row: Item) {
    match c
    case Arrives(ThinkingDelta(text, turnId)) =>
      EndsWith(s.items, (r: Item) => r.Thinking? && r.turnId == turnId) && i == |s.items| - 1
      && row == Thinking(s.items[i].text + text, turnId)
    case Arrives(MessageDelta(text, messageId, turnId)) =>
      (if messageId.Some? then First(s.items, i, (r: Item) => Collects(r, messageId, turnId))
       else s.open == Some(i) && i < |s.items| && s.items[i].Assistant?)
      && row == Assistant(s.items[i].text + text, s.items[i].messageId, s.items[i].turnId)
    case Arrives(Message(text, _)) =>
      text != "" && s.open == Some(i) && i < |s.items| && s.items[i].Assistant? && s.items[i].text == ""
      && row == Assistant(text, s.items[i].messageId, s.items[i].turnId)
    case Arrives(ToolCall(tool, toolId, turnId, input, streaming)) =>
      toolId.Some? && Latest(s.items, i, (r: Item) => Awaits(r, toolId, turnId))
      && var r := s.items[i];
         row == Tool(if tool.Some? then tool else r.tool, toolId, r.turnId, if input.Some? then input else r.input,
                     streaming, None, r.isError)
    case Arrives(ToolResult(toolId, turnId, content, isError)) =>
      Latest(s.items, i, (r: Item) => Awaits(r, toolId, turnId))
      && var r := s.items[i]; row == Tool(r.tool, toolId, r.turnId, r.input, r.streaming, Some(content), isError)
    case Arrives(UserEcho(text, inputId)) =>
      (if inputId.Some? then First(s.items, i, (r: Item) => EchoOf(r, text, inputId))
       else Latest(s.items, i, (r: Item) => EchoOf(r, text, inputId)))
      && row == User(s.items[i].text, false, inputId)
    case _ => false
  }

  // The bubble a change closes or opens.
  predicate Closes(c: Change) {
    match c
    case Typed(_, _) => true
    case Arrives(ev) => ev.TurnStart? || ev.ToolCall? || ev.TurnEnd? || (ev.Message? && ev.final)
  }

  ghost predicate OpensBubble(s: State, c: Change) {
    c.Arrives? && c.event.MessageDelta? && exists row :: AddsRow(s, c, row)
  }

  lemma SaidSomethingIs(items: seq<Item>)
    ensures Answered(items) <==> SaidSomething(items)
  {
    if items != [] {
      var n := |items| - 1;
      var before := items[..n];
      SaidSomethingIs(before);
      if j: nat :| SaidAt(before, j) {
        SaidBefore(items, j);
      }
      if j: nat :| SaidAt(items, j) {
        if j < n {
          SaidBefore(items, j);
        }
      }
      assert items[n].Assistant? && items[n].text != "" ==> SaidAt(items, n);
    }
  }

  lemma SaidBefore(items: seq<Item>, j: nat)
    requires items != [] && j != |items| - 1
    ensures var n := |items| - 1;
            SaidAt(items, j) <==> SaidAt(items[..n], j) && !items[n].Turn? && !items[n].User?
  {
    var n := |items| - 1;
    assert forall m: nat :: m < n ==> items[..n][m] == items[m];
  }

  // A change adds one row, rewrites one row, or does neither.
  ghost predicate ChangesRows(s: State, c: Change, t: State) {
    || (exists row :: AddsRow(s, c, row) && t.items == s.items + [row])
    || (exists i: nat, row :: Rewrites(s, c, i, row) && i < |s.items| && t.items == s.items[i := row])
    || (t.items == s.items && (forall row :: !AddsRow(s, c, row)) && forall i: nat, row :: !Rewrites(s, c, i, row))
  }

  lemma TextRows(s: State, c: Change)
    requires Inv(s) && c.Arrives? && (c.event.ThinkingDelta? || c.event.MessageDelta? || c.event.Message?)
    ensures ChangesRows(s, c, Changed(s, c))
  {
    match c.event
    case ThinkingDelta(text, turnId) =>
      if EndsWith(s.items, (r: Item) => r.Thinking? && r.turnId == turnId) {
        assert Rewrites(s, c, |s.items| - 1, Thinking(s.items[|s.items| - 1].text + text, turnId));
      } else {
        assert AddsRow(s, c, Thinking(text, turnId));
      }
    case MessageDelta(text, messageId, turnId) =>
      var found := if messageId.Some? then FirstWhere(s.items, item => IsStream(item, c.event), 0) else s.open;
      if found.Some? {
        assert Rewrites(s, c, found.value, WithText(s.items[found.value], s.items[found.value].text + text));
      } else {
        assert AddsRow(s, c, Assistant(text, messageId, if messageId.Some? then turnId else None));
      }
    case Message(text, final) =>
      if text != "" && s.open.None? {
        assert AddsRow(s, c, Assistant(text, None, None));
      } else if text != "" && s.items[s.open.value].text == "" {
        assert Rewrites(s, c, s.open.value, WithText(s.items[s.open.value], text));
      }
  }

  lemma ToolRows(s: State, c: Change)
    requires c.Arrives? && (c.event.ToolCall? || c.event.ToolResult?)
    ensures ChangesRows(s, c, Changed(s, c))
  {
    match c.event
    case ToolCall(tool, toolId, turnId, input, streaming) =>
      var found := if toolId.None? then None else LastWhere(s.items, item => IsPendingTool(item, toolId, turnId));
      if found.Some? {
        assert Rewrites(s, c, found.value, WithCall(s.items[found.value], tool, input, streaming));
      } else {
        assert AddsRow(s, c, Tool(tool, toolId, turnId, input, streaming, None, false));
      }
    case ToolResult(toolId, turnId, content, isError) =>
      var found := LastWhere(s.items, item => IsPendingTool(item, toolId, turnId));
      if found.Some? {
        assert Rewrites(s, c, found.value, WithResult(s.items[found.value], content, isError));
      } else {
        assert AddsRow(s, c, Tool(None, toolId, turnId, None, false, Some(content), isError));
      }
  }

  lemma EndRows(s: State, c: Change)
    requires c.Arrives? && c.event.TurnEnd?
    ensures ChangesRows(s, c, Changed(s, c))
  {
    SaidSomethingIs(s.items);
    var ev := c.event;
    if !EndsAlready(s.items, ev.turnId) {
      assert AddsRow(s, c, Turn(ev.turnId, ev.isError, if SaidSomething(s.items) then None else ev.result));
    }
  }

  lemma EchoRows(s: State, c: Change)
    requires c.Arrives? && c.event.UserEcho?
    ensures ChangesRows(s, c, Changed(s, c))
  {
    var ev := c.event;
    var found := if ev.clientInputId.Some? then FirstWhere(s.items, item => IsEchoed(item, ev), 0)
                 else LastWhere(s.items, item => IsEchoed(item, ev));
    if found.Some? {
      assert Rewrites(s, c, found.value, User(s.items[found.value].text, false, ev.clientInputId));
    } else {
      assert AddsRow(s, c, User(ev.text, false, ev.clientInputId));
    }
  }

  // Every change does to the rows what is said above, and nothing else.
  lemma ChangedRows(s: State, c: Change)
    requires Inv(s)
    ensures ChangesRows(s, c, Changed(s, c))
  {
    match c
    case Typed(text, inputId) => assert AddsRow(s, c, User(text, true, inputId));
    case Arrives(ThinkingDelta(_, _)) => TextRows(s, c);
    case Arrives(MessageDelta(_, _, _)) => TextRows(s, c);
    case Arrives(Message(_, _)) => TextRows(s, c);
    case Arrives(ToolCall(_, _, _, _, _)) => ToolRows(s, c);
    case Arrives(ToolResult(_, _, _, _)) => ToolRows(s, c);
    case Arrives(TurnEnd(_, _, _, _)) => EndRows(s, c);
    case Arrives(UserEcho(_, _)) => EchoRows(s, c);
    case Arrives(ErrorNote(message)) => assert AddsRow(s, c, Failure(message));
    case _ =>
  }

  // A bubble opens with a delta that adds a row, and stays open until a change closes it.
  lemma ChangedBubble(s: State, c: Change)
    ensures Changed(s, c).open == if Closes(c) then None else if OpensBubble(s, c) then Some(|s.items|) else s.open
  {
    if c.Arrives? && c.event.MessageDelta? {
      var ev := c.event;
      var found := if ev.messageId.Some? then FirstWhere(s.items, item => IsStream(item, ev), 0) else s.open;
      if found.None? {
        assert AddsRow(s, c, Assistant(ev.text, ev.messageId, if ev.messageId.Some? then ev.turnId else None));
      }
    }
  }

  // What goes on beside the rows: notes, the pending question, the configuration, the run.
  ghost predicate SameRest(s: State, t: State) {
    t == s.(items := t.items, open := t.open)
  }

  lemma TextRest(s: State, ev: Event)
    requires ev.ThinkingDelta? || ev.MessageDelta? || ev.Message?
    ensures SameRest(s, Applied(s, ev))
  {
  }

  lemma RowRest(s: State, ev: Event)
    requires ev.ToolCall? || ev.ToolResult? || ev.UserEcho? || ev.ErrorNote? || ev.Unknown?
    ensures SameRest(s, Applied(s, ev))
  {
  }

  lemma ChangedRest(s: State, ev: Event)
    ensures var t := Applied(s, ev);
            && t.status == (if ev.StatusNote? then Some(ev.note) else s.status)
            && t.pendingPermission == (if ev.PermissionAsk? then Some(ev.requestId) else s.pendingPermission)
            && t.config == (if ev.SessionConfig? then ev.options else s.config)
            && t.configured == (s.configured || ev.SessionConfig?)
            && (ev.TurnStart? ==> t.run == Some(RunState("running", ev.turnId)))
            && (ev.TurnEnd? && (ev.turnId.Some? || s.run.Some?) ==> t.run == Some(RunState(ev.status, ev.turnId)))
            && (ev.TurnEnd? && ev.turnId.None? && s.run.None? ==> t.run.None?)
            && (!ev.TurnStart? && !ev.TurnEnd? ==> t.run == s.run)
  {
    if ev.ThinkingDelta? || ev.MessageDelta? || ev.Message? {
      TextRest(s, ev);
    } else if ev.ToolCall? || ev.ToolResult? || ev.UserEcho? || ev.ErrorNote? || ev.Unknown? {
      RowRest(s, ev);
    }
  }

  // ---- Texts ---------------------------------------------------------------------------------

  predicate Speaks(c: Change) {
    c.Arrives? && (c.event.ThinkingDelta? || c.event.MessageDelta? || c.event.Message?)
  }

  // The change has text for row i: it adds the row or rewrites it.
  ghost predicate Addresses(s: State, c: Change, i: nat) {
    Speaks(c) && ((i == |s.items| && exists row :: AddsRow(s, c, row)) || exists row :: Rewrites(s, c, i, row))
  }

  // What one change says to row i.
  ghost function Piece(s: State, c: Change, i: nat): string {
    if Addresses(s, c, i) then c.event.text else ""
  }

  // What was said to row i, in the order of arrival.
  ghost function Said(s: State, changes: seq<Change>, i: nat): string
    decreases |changes|
  {
    if changes == [] then ""
    else Piece(s, changes[0], i) + Said(Changed(s, changes[0]), changes[1..], i)
  }

  predicate Texted(row: Item) {
    row.Thinking? || row.Assistant?
  }

  function TextAt(items: seq<Item>, i: nat): string {
    if i < |items| && Texted(items[i]) then items[i].text else ""
  }

  lemma TextStep(s: State, c: Change, i: nat)
    requires Inv(s) && i < |Changed(s, c).items| && Texted(Changed(s, c).items[i])
    ensures Changed(s, c).items[i].text == TextAt(s.items, i) + (if Addresses(s, c, i) then c.event.text else "")
  {
    ChangedRows(s, c);
    var t := Changed(s, c);
    if row :| AddsRow(s, c, row) && t.items == s.items + [row] {
      NeverBoth(s, c, row);
      assert i < |s.items| ==> t.items[i] == s.items[i];
    } else if j: nat, row :| Rewrites(s, c, j, row) && j < |s.items| && t.items == s.items[j := row] {
      OneRewritten(s, c, j, row);
    }
  }

  lemma NeverBoth(s: State, c: Change, row: Item)
    requires AddsRow(s, c, row)
    ensures forall i: nat, r :: !Rewrites(s, c, i, r)
  {
  }

  lemma OneRewritten(s: State, c: Change, i: nat, row: Item)
    requires Rewrites(s, c, i, row)
    ensures forall j: nat, r :: Rewrites(s, c, j, r) ==> i == j && r == row
    ensures forall r :: !AddsRow(s, c, r)
  {
  }

  lemma ChangedInv(s: State, c: Change)
    requires Inv(s)
    ensures Inv(Changed(s, c)) && Grows(s.items, Changed(s, c).items)
  {
    assert ChangedAll(s, [c]) == Changed(s, c) by {
      assert [c][1..] == [];
      assert ChangedAll(Changed(s, c), []) == Changed(s, c);
    }
    InterleavedInv(s, [c]);
  }

  lemma PieceAdds(s: State, c: Change, i: nat)
    requires Inv(s) && (i < |Changed(s, c).items| ==> Texted(Changed(s, c).items[i]))
    ensures TextAt(Changed(s, c).items, i) == TextAt(s.items, i) + Piece(s, c, i)
  {
    if i < |Changed(s, c).items| {
      TextStep(s, c, i);
    } else {
      NotYetAddressed(s, c, i);
    }
  }

  lemma NotYetAddressed(s: State, c: Change, i: nat)
    requires Inv(s) && i >= |Changed(s, c).items|
    ensures !Addresses(s, c, i) && i >= |s.items|
  {
    ChangedRows(s, c);
    ChangedInv(s, c);
    if Addresses(s, c, i) && i == |s.items| {
      var row :| AddsRow(s, c, row);
      NeverBoth(s, c, row);
    }
  }

  lemma TextedBefore(s: State, changes: seq<Change>, i: nat)
    requires Inv(s) && i < |ChangedAll(s, changes).items| && Texted(ChangedAll(s, changes).items[i])
    ensures i < |s.items| ==> Texted(s.items[i])
  {
    InterleavedInv(s, changes);
    assert i < |s.items| ==> SameRow(s.items[i], ChangedAll(s, changes).items[i]);
  }

  // The text of an assistant or thinking row is what was said to it, one piece after the
  // other: deltas of its message and turn, deltas and thoughts that came while it was the
  // open one, and a complete message only where there was nothing yet.
  lemma {:induction false} TextIsSaid(s: State, changes: seq<Change>, i: nat)
    requires Inv(s) && i < |ChangedAll(s, changes).items| && Texted(ChangedAll(s, changes).items[i])
    ensures ChangedAll(s, changes).items[i].text == TextAt(s.items, i) + Said(s, changes, i)
    decreases |changes|
  {
    if changes != [] {
      var t := Changed(s, changes[0]);
      ChangedInv(s, changes[0]);
      TextedBefore(t, changes[1..], i);
      PieceAdds(s, changes[0], i);
      TextIsSaid(t, changes[1..], i);
      Assoc(TextAt(s.items, i), Piece(s, changes[0], i), Said(t, changes[1..], i));
    }
  }

  lemma Assoc(a: string, b: string, c: string)
    ensures (a + b) + c == a + (b + c)
  {
  }

  // ---- Bubbles ----------------------------------------------------------------------------------

  lemma {:induction false} AllLast(s: State, changes: seq<Change>)
    requires changes != []
    ensures ChangedAll(s, changes) == Changed(ChangedAll(s, changes[..|changes| - 1]), changes[|changes| - 1])
    decreases |changes|
  {
    var c := changes[0];
    if |changes| == 1 {
      assert changes[1..] == [] && changes[..0] == [];
    } else {
      AllLast(Changed(s, c), changes[1..]);
      assert changes[1..][..|changes| - 2] == changes[..|changes| - 1][1..];
    }
  }

  // Change m neither closes the bubble nor opens another one.
  ghost predicate LeavesOpen(s: State, changes: seq<Change>, m: nat)
    requires m < |changes|
  {
    !Closes(changes[m]) && !OpensBubble(ChangedAll(s, changes[..m]), changes[m])
  }

  // The bubble on row i was opened by change n and neither closed nor replaced since.
  ghost predicate OpenSince(s: State, changes: seq<Change>, n: nat, i: nat) {
    && n < |changes|
    && OpensBubble(ChangedAll(s, changes[..n]), changes[n])
    && i == |ChangedAll(s, changes[..n]).items|
    && forall m :: n < m < |changes| ==> LeavesOpen(s, changes, m)
  }

  // A bubble is open if and only if a delta opened it since the last change that closes
  // bubbles: a turn that starts or ends, a tool call, a final message, or a typed turn.
  lemma {:induction false} OpenIffSince(s: State, changes: seq<Change>, i: nat)
    requires s.open.None?
    ensures ChangedAll(s, changes).open == Some(i) <==> exists n: nat :: OpenSince(s, changes, n, i)
    decreases |changes|
  {
    if changes != [] {
      var m := |changes| - 1;
      var before := changes[..m];
      var u := ChangedAll(s, before);
      AllLast(s, changes);
      ChangedBubble(u, changes[m]);
      OpenIffSince(s, before, i);
      if OpensBubble(u, changes[m]) {
        OpensNotCloses(u, changes[m]);
        if i == |u.items| {
          assert OpenSince(s, changes, m, i);
        }
        forall n: nat | OpenSince(s, changes, n, i)
          ensures n == m
        {
          assert n < m ==> LeavesOpen(s, changes, m);
        }
      } else if Closes(changes[m]) {
        forall n: nat
          ensures !OpenSince(s, changes, n, i)
        {
          assert n < m && OpenSince(s, changes, n, i) ==> LeavesOpen(s, changes, m);
        }
      } else {
        SinceBefore(s, changes, before, i);
      }
    }
  }

  lemma OpensNotCloses(s: State, c: Change)
    requires OpensBubble(s, c)
    ensures !Closes(c)
  {
  }

  lemma SinceBefore(s: State, changes: seq<Change>, before: seq<Change>, i: nat)
    requires changes != [] && before == changes[..|changes| - 1]
    requires LeavesOpen(s, changes, |changes| - 1)
    ensures (exists n: nat :: OpenSince(s, changes, n, i)) <==> exists n: nat :: OpenSince(s, before, n, i)
  {
    forall m: nat | m < |before|
      ensures before[..m] == changes[..m]
      ensures LeavesOpen(s, before, m) <==> LeavesOpen(s, changes, m)
    {
      assert before[..m] == changes[..m];
    }
    if n: nat :| OpenSince(s, before, n, i) {
      assert OpenSince(s, changes, n, i);
    }
    if n: nat :| OpenSince(s, changes, n, i) {
      assert OpenSince(s, before, n, i);
    }
  }

  // ---- Results of tools ---------------------------------------------------------------------------

  // The change is the result of the tool on row i, which it adds if no call awaits it.
  ghost predicate Resolves(s: State, c: Change, i: nat) {
    c.Arrives? && c.event.ToolResult?
    && ((i == |s.items| && exists row :: AddsRow(s, c, row)) || exists row :: Rewrites(s, c, i, row))
  }

  ghost function Resolved(s: State, changes: seq<Change>, i: nat): Option<Event>
    decreases |changes|
  {
    if changes == [] then None
    else if Resolves(s, changes[0], i) then Some(changes[0].event)
    else Resolved(Changed(s, changes[0]), changes[1..], i)
  }

  ghost predicate ResultOf(row: Item, ev: Option<Event>)
    requires row.Tool?
  {
    if ev.None? then row.result.None?
    else ev.value.ToolResult? && row.result == Some(ev.value.content) && row.isError == ev.value.isError
  }

  lemma ResultStep(s: State, c: Change, i: nat)
    requires Inv(s) && i < |Changed(s, c).items| && Changed(s, c).items[i].Tool?
    requires i < |s.items| ==> s.items[i].Tool? && s.items[i].result.None?
    ensures ResultOf(Changed(s, c).items[i], if Resolves(s, c, i) then Some(c.event) else None)
  {
    ChangedRows(s, c);
    var t := Changed(s, c);
    if row :| AddsRow(s, c, row) && t.items == s.items + [row] {
      NeverBoth(s, c, row);
    } else if j: nat, row :| Rewrites(s, c, j, row) && j < |s.items| && t.items == s.items[j := row] {
      OneRewritten(s, c, j, row);
    }
  }

  lemma NoResultYet(s: State, c: Change, i: nat)
    requires Inv(s) && i >= |Changed(s, c).items|
    ensures !Resolves(s, c, i) && i >= |s.items|
  {
    ChangedRows(s, c);
    ChangedInv(s, c);
  }

  // A result that is there stays.
  lemma ResultStays(s: State, c: Change, i: nat)
    requires Inv(s) && i < |s.items| && s.items[i].Tool? && s.items[i].result.Some?
    ensures i < |Changed(s, c).items| && Changed(s, c).items[i] == s.items[i]
  {
    ChangedRows(s, c);
    ChangedInv(s, c);
  }

  lemma {:induction false} ResultKept(s: State, changes: seq<Change>, i: nat)
    requires Inv(s) && i < |s.items| && s.items[i].Tool? && s.items[i].result.Some?
    ensures i < |ChangedAll(s, changes).items| && ChangedAll(s, changes).items[i] == s.items[i]
    decreases |changes|
  {
    if changes != [] {
      ResultStays(s, changes[0], i);
      ChangedInv(s, changes[0]);
      ResultKept(Changed(s, changes[0]), changes[1..], i);
    }
  }

  // A tool row shows the content of the first result that is matched to it, and nothing
  // before that one comes; later ones go elsewhere.
  lemma {:induction false} ResultIsFirst(s: State, changes: seq<Change>, i: nat)
    requires Inv(s) && i < |ChangedAll(s, changes).items| && ChangedAll(s, changes).items[i].Tool?
    requires i < |s.items| ==> s.items[i].Tool? && s.items[i].result.None?
    ensures ResultOf(ChangedAll(s, changes).items[i], Resolved(s, changes, i))
    decreases |changes|
  {
    if changes != [] {
      var t := Changed(s, changes[0]);
      ChangedInv(s, changes[0]);
      InterleavedInv(t, changes[1..]);
      if i < |t.items| {
        assert SameRow(t.items[i], ChangedAll(s, changes).items[i]);
        ResultStep(s, changes[0], i);
        if t.items[i].result.Some? {
          ResultKept(t, changes[1..], i);
        } else {
          ResultIsFirst(t, changes[1..], i);
        }
      } else {
        NoResultYet(s, changes[0], i);
        ResultIsFirst(t, changes[1..], i);
      }
    }
  }

  // ---- Where rows come from ------------------------------------------------------------------------

  // Change n of the run added this row, as row i.
  ghost predicate AddedBy(s: State, changes: seq<Change>, n: nat, i: nat, row: Item) {
    n < |changes| && |ChangedAll(s, changes[..n]).items| == i && AddsRow(ChangedAll(s, changes[..n]), changes[n], row)
  }

  lemma RowStays(s: State, c: Change, i: nat)
    requires Inv(s) && i < |s.items|
    ensures i < |Changed(s, c).items| && SameRow(s.items[i], Changed(s, c).items[i])
  {
    ChangedInv(s, c);
  }

  lemma RowComes(s: State, c: Change, i: nat) returns (row: Item)
    requires Inv(s) && |s.items| <= i < |Changed(s, c).items|
    ensures AddsRow(s, c, row) && i == |s.items| && Changed(s, c).items[i] == row
  {
    ChangedRows(s, c);
    row :| AddsRow(s, c, row) && Changed(s, c).items == s.items + [row];
  }

  // Every row that was not there at the start was added by one change of the run, and is
  // still that row: its kind, its ids and, for a turn or an error, all of it. So a turn row
  // has the result of its turn end only if no assistant text came since the last turn or
  // user row.
  lemma {:induction false} RowOrigin(s: State, changes: seq<Change>, i: nat)
    requires Inv(s) && |s.items| <= i < |ChangedAll(s, changes).items|
    ensures exists n: nat, row :: AddedBy(s, changes, n, i, row) && SameRow(row, ChangedAll(s, changes).items[i])
    decreases |changes|
  {
    if changes != [] {
      var m := |changes| - 1;
      var before := changes[..m];
      var u := ChangedAll(s, before);
      InterleavedInv(s, before);
      AllLast(s, changes);
      if i < |u.items| {
        RowOrigin(s, before, i);
        var n: nat, row :| AddedBy(s, before, n, i, row) && SameRow(row, u.items[i]);
        assert before[..n] == changes[..n];
        assert AddedBy(s, changes, n, i, row);
        RowStays(u, changes[m], i);
      } else {
        var row := RowComes(u, changes[m], i);
        assert AddedBy(s, changes, m, i, row);
      }
    }
  }

  // The turn row with what it says, when its turn end came.
  lemma TurnRows(s: State, changes: seq<Change>, i: nat)
    requires Inv(s) && |s.items| <= i < |ChangedAll(s, changes).items| && ChangedAll(s, changes).items[i].Turn?
    ensures exists n: nat :: n < |changes| && changes[n].Arrives? && changes[n].event.TurnEnd?
              && var before := ChangedAll(s, changes[..n]).items; var ev := changes[n].event;
                 && |before| == i
                 && ChangedAll(s, changes).items[i]
                    == Turn(ev.turnId, ev.isError, if SaidSomething(before) then None else ev.result)
  {
    RowOrigin(s, changes, i);
    var n: nat, row :| AddedBy(s, changes, n, i, row) && SameRow(row, ChangedAll(s, changes).items[i]);
    assert row.Turn? && changes[n].Arrives? && changes[n].event.TurnEnd?;
  }

  // ---- Confirmation -------------------------------------------------------------------------------

  // Some echo of the run is about the user row i.
  ghost predicate Confirmed(s: State, changes: seq<Change>, i: nat)
    decreases |changes|
  {
    changes != []
    && ((changes[0].Arrives? && changes[0].event.UserEcho? && exists row :: Rewrites(s, changes[0], i, row))
        || Confirmed(Changed(s, changes[0]), changes[1..], i))
  }

  lemma LocalStep(s: State, c: Change, i: nat)
    requires Inv(s) && i < |s.items| && s.items[i].User?
    ensures i < |Changed(s, c).items| && Changed(s, c).items[i].User?
    ensures Changed(s, c).items[i].local
       <==> s.items[i].local && !(c.Arrives? && c.event.UserEcho? && exists row :: Rewrites(s, c, i, row))
  {
    ChangedInv(s, c);
    ChangedRows(s, c);
    var t := Changed(s, c);
    assert SameRow(s.items[i], t.items[i]);
    if row :| AddsRow(s, c, row) && t.items == s.items + [row] {
      NeverBoth(s, c, row);
    } else if j: nat, row :| Rewrites(s, c, j, row) && j < |s.items| && t.items == s.items[j := row] {
      OneRewritten(s, c, j, row);
    }
  }

  // A turn that was typed here stays unconfirmed exactly until an echo of it comes.
  lemma {:induction false} LocalUntilEcho(s: State, changes: seq<Change>, i: nat)
    requires Inv(s) && i < |s.items| && s.items[i].User?
    ensures var t := ChangedAll(s, changes);
            i < |t.items| && t.items[i].User? && (t.items[i].local <==> s.items[i].local && !Confirmed(s, changes, i))
    decreases |changes|
  {
    if changes != [] {
      LocalStep(s, changes[0], i);
      ChangedInv(s, changes[0]);
      LocalUntilEcho(Changed(s, changes[0]), changes[1..], i);
    }
  }

  // ---- The fold ---------------------------------------------------------------------------------------

  function Arrived(events: seq<Event>): seq<Change> {
    seq(|events|, n requires 0 <= n < |events| => Arrives(events[n]))
  }

  lemma {:induction false} FoldIsChanged(s: State, events: seq<Event>)
    ensures Fold(s, events) == ChangedAll(s, Arrived(events))
    decreases |events|
  {
    if events != [] {
      assert Arrived(events)[1..] == Arrived(events[1..]);
      FoldIsChanged(Applied(s, events[0]), events[1..]);
    }
  }

  // From an empty chat, whatever events come: each row as above.
  lemma FoldSays(events: seq<Event>, i: nat)
    requires i < |Fold(INITIAL, events).items|
    ensures var row := Fold(INITIAL, events).items[i]; var changes := Arrived(events);
            && (Texted(row) ==> row.text == Said(INITIAL, changes, i))
            && (row.Tool? ==> ResultOf(row, Resolved(INITIAL, changes, i)))
            && (row.User? ==> !row.local)
            && (exists n: nat, added :: AddedBy(INITIAL, changes, n, i, added) && SameRow(added, row))
  {
    var changes := Arrived(events);
    FoldIsChanged(INITIAL, events);
    var row := ChangedAll(INITIAL, changes).items[i];
    if Texted(row) {
      TextIsSaid(INITIAL, changes, i);
    }
    if row.Tool? {
      ResultIsFirst(INITIAL, changes, i);
    }
    RowOrigin(INITIAL, changes, i);
    if row.User? {
      FoldConfirms(events, i);
    }
  }

  // A chat that is only folded holds no unconfirmed row.
  lemma {:induction false} NothingLocal(s: State, events: seq<Event>)
    requires Inv(s) && forall j :: 0 <= j < |s.items| && s.items[j].User? ==> !s.items[j].local
    ensures forall j :: 0 <= j < |Fold(s, events).items| && Fold(s, events).items[j].User? ==> !Fold(s, events).items[j].local
    decreases |events|
  {
    if events != [] {
      ChangedRows(s, Arrives(events[0]));
      AppliedInv(s, events[0]);
      NothingLocal(Applied(s, events[0]), events[1..]);
    }
  }

  lemma FoldConfirms(events: seq<Event>, i: nat)
    requires i < |Fold(INITIAL, events).items| && Fold(INITIAL, events).items[i].User?
    ensures !Fold(INITIAL, events).items[i].local
  {
    NothingLocal(INITIAL, events);
  }

  // The pieces of an answer, streamed one after the other, make one row with all of them.
  function Pieces(texts: seq<string>): seq<Event> {
    seq(|texts|, n requires 0 <= n < |texts| => MessageDelta(texts[n], None, None))
  }

  function Joined(texts: seq<string>): string {
    if texts == [] then "" else texts[0] + Joined(texts[1..])
  }

  lemma OnePiece(s: State, piece: string, text: string)
    requires s.open == Some(0) && s.items == [Assistant(text, None, None)]
    ensures var t := Applied(s, MessageDelta(piece, None, None));
            t.open == Some(0) && t.items == [Assistant(text + piece, None, None)]
  {
  }

  lemma {:induction false} PiecesJoin(s: State, texts: seq<string>, text: string)
    requires s.open == Some(0) && s.items == [Assistant(text, None, None)]
    ensures Fold(s, Pieces(texts)).items == [Assistant(text + Joined(texts), None, None)]
    decreases |texts|
  {
    if texts == [] {
      assert text + Joined(texts) == text;
    } else {
      assert Pieces(texts)[0] == MessageDelta(texts[0], None, None) && Pieces(texts)[1..] == Pieces(texts[1..]);
      OnePiece(s, texts[0], text);
      PiecesJoin(Applied(s, Pieces(texts)[0]), texts[1..], text + texts[0]);
      assert text + texts[0] + Joined(texts[1..]) == text + Joined(texts);
    }
  }

  lemma StreamedAnswer(texts: seq<string>)
    requires texts != []
    ensures Fold(INITIAL, Pieces(texts)).items == [Assistant(Joined(texts), None, None)]
  {
    assert Pieces(texts)[1..] == Pieces(texts[1..]);
    PiecesJoin(Applied(INITIAL, Pieces(texts)[0]), texts[1..], texts[0]);
  }
}
