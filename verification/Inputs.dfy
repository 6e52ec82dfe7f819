// Delivering client input: to the registered launch only, and to a session at most once.
module Inputs {
  import opened Common
  import opened Opens
  import SpoolStores

  // `inputId` is the canonical spelling of a well-formed client input id.
  datatype InputFrame = InputFrame(key: Key, inputId: Option<string>, launchId: Option<string>, isText: bool)

  datatype Health = Health(alive: bool, accepts: bool)

  // Storing the receipt can fail, and the supervisor or the session's writer can fail
  // right after it.
  datatype Fault = NoFault | ReceiptFails | FailsAfterReceipt

  datatype Ack = Delivered(inputId: string) | Rejected(inputId: string, reason: string)

  datatype Write = Write(session: nat, inputId: string, launchId: Option<string>)

  function Active(t: Table, key: Key): Option<string> {
    if key in t.launchIds then t.launchIds[key] else None
  }

  // The session an input frame reaches: its launch id is the registered one, and no
  // other generation is pending.
  function Reaches(t: Table, f: InputFrame): Option<nat> {
    var target := if f.key in t.generations then t.generations[f.key].launchId else Active(t, f.key);
    if f.launchId != target || target != Active(t, f.key) || f.inputId.None? || f.key !in t.ptys then None
    else Some(t.ptys[f.key])
  }

  function Refusal(f: InputFrame, health: Health): Option<string> {
    if !health.alive then Some("runtime_not_running")
    else if !f.isText then Some("invalid_input")
    else if !health.accepts then Some("turn_queue_full")
    else None
  }

  datatype Desk = Desk(table: Table, receipts: set<string>, written: seq<Write>, acks: seq<Ack>)

  datatype Action =
    | Input(frame: InputFrame, health: Health, fault: Fault)
    | Others(table: Table)     // whatever opens, closes and exits do in between
    | Restart

  const NO_TABLE := Table({}, false, map[], map[], map[], map[], map[], map[])

  const START := Desk(NO_TABLE, {}, [], [])

  function Handle(s: Desk, f: InputFrame, health: Health, fault: Fault): Desk {
    var session := Reaches(s.table, f);
    if session.None? then s
    else
      var id := f.inputId.value;
      var reason := Refusal(f, health);
      if reason.Some? then s.(acks := s.acks + [Rejected(id, reason.value)])
      else if !SpoolStores.ValidInputId(id) || (fault.ReceiptFails? && id !in s.receipts) then s
      else if id in s.receipts then s.(acks := s.acks + [Delivered(id)])
      else if fault.FailsAfterReceipt? then s.(receipts := s.receipts + {id})
      else Desk(s.table, s.receipts + {id}, s.written + [Write(session.value, id, f.launchId)], s.acks + [Delivered(id)])
  }

  // The disk keeps the receipts over a restart.
  function Step(s: Desk, a: Action): Desk {
    match a
    case Input(f, health, fault) => Handle(s, f, health, fault)
    case Others(t) => s.(table := t)
    case Restart => s.(table := NO_TABLE)
  }

  function Run(s: Desk, actions: seq<Action>): Desk
    decreases |actions|
  {
    if actions == [] then s else Run(Step(s, actions[0]), actions[1..])
  }

  // ---- The same as the supervisor does it ---------------------------------------------------

  class InputDesk {
    const spool: SpoolStores.DiskSpool
    const opens: OpenTable
    var written: seq<Write>
    var acks: seq<Ack>

    ghost predicate Valid()
      reads this, spool, opens
    {
      spool.Valid() && spool.isOpen && opens.Valid()
    }

    ghost function State(): Desk
      reads this, spool, opens
    {
      Desk(opens.State(), spool.receipts, written, acks)
    }

    constructor (spool: SpoolStores.DiskSpool, opens: OpenTable)
      requires spool.Valid() && spool.isOpen && opens.Valid()
      ensures Valid() && this.spool == spool && this.opens == opens
      ensures State() == Desk(opens.State(), spool.receipts, [], [])
    {
      this.spool := spool;
      this.opens := opens;
      written, acks := [], [];
    }

    method HandleInput(f: InputFrame, health: Health, fault: Fault)
      requires Valid()
      modifies this, spool
      ensures Valid()
      ensures State() == Handle(old(State()), f, health, fault)
    {
      var active := if f.key in opens.launchIds then opens.launchIds[f.key] else None;
      var target := if f.key in opens.generations then opens.generations[f.key].launchId else active;
      if f.launchId != target || target != active || f.inputId.None? || f.key !in opens.ptys {
        return;
      }
      var id := f.inputId.value;
      if !health.alive {
        acks := acks + [Rejected(id, "runtime_not_running")];
      } else if !f.isText {
        acks := acks + [Rejected(id, "invalid_input")];
      } else if !health.accepts {
        acks := acks + [Rejected(id, "turn_queue_full")];
      } else {
        var first := spool.RecordInputOnce(id, fault.ReceiptFails?);
        if first.Err? {
          return;
        }
        if first.value {
          if fault.FailsAfterReceipt? {
            return;
          }
          written := written + [Write(opens.ptys[f.key], id, f.launchId)];
        }
        acks := acks + [Delivered(id)];
      }
    }
  }

  // ---- What becomes of one input ------------------------------------------------------------

  // A frame is ignored unless it names the launch registered for its key and no other
  // generation is pending there. One that is not is rejected for the first of three reasons,
  // acknowledged again if its receipt is there, and otherwise stored, written to the session
  // registered for its key, and acknowledged, in this order, as far as nothing fails.
  lemma InputDecides(s: Desk, f: InputFrame, health: Health, fault: Fault)
    ensures var t := Step(s, Input(f, health, fault));
            var reaches := && f.inputId.Some? && f.key in s.table.ptys
                           && f.launchId == (if f.key in s.table.launchIds then s.table.launchIds[f.key] else None)
                           && (f.key in s.table.generations ==> s.table.generations[f.key].launchId == f.launchId);
            if !reaches then t == s
            else
              var id := f.inputId.value;
              if !health.alive then t == s.(acks := s.acks + [Rejected(id, "runtime_not_running")])
              else if !f.isText then t == s.(acks := s.acks + [Rejected(id, "invalid_input")])
              else if !health.accepts then t == s.(acks := s.acks + [Rejected(id, "turn_queue_full")])
              else if !SpoolStores.ValidInputId(id) then t == s
              else if id in s.receipts then t == s.(acks := s.acks + [Delivered(id)])
              else match fault
                   case ReceiptFails => t == s
                   case FailsAfterReceipt => t == s.(receipts := s.receipts + {id})
                   case NoFault =>
                     t == s.(receipts := s.receipts + {id}, acks := s.acks + [Delivered(id)],
                             written := s.written + [Write(s.table.ptys[f.key], id, f.launchId)])
  {
  }

  // ---- Properties ---------------------------------------------------------------------------

  ghost predicate Inv(s: Desk) {
    && (forall i, j :: 0 <= i < j < |s.written| ==> s.written[i].inputId != s.written[j].inputId)
    && (forall i :: 0 <= i < |s.written| ==> s.written[i].inputId in s.receipts)
    && (forall i :: 0 <= i < |s.acks| && s.acks[i].Delivered? ==> s.acks[i].inputId in s.receipts)
  }

  lemma StepInv(s: Desk, a: Action)
    requires Inv(s)
    ensures Inv(Step(s, a))
    ensures s.receipts <= Step(s, a).receipts
  {
  }

  lemma {:induction false} RunInv(s: Desk, actions: seq<Action>)
    requires Inv(s)
    ensures Inv(Run(s, actions))
    decreases |actions|
  {
    if actions != [] {
      StepInv(s, actions[0]);
      RunInv(Step(s, actions[0]), actions[1..]);
    }
  }

  // Over all runs, restarts included, an input id is written to a session at most
  // once, and every delivered acknowledgement has its receipt.
  lemma WrittenAtMostOnce(actions: seq<Action>, i: nat, j: nat)
    requires i < |Run(START, actions).written| && j < |Run(START, actions).written|
    requires Run(START, actions).written[i].inputId == Run(START, actions).written[j].inputId
    ensures i == j
  {
    RunInv(START, actions);
  }

  lemma DeliveredHasReceipt(actions: seq<Action>, i: nat)
    requires i < |Run(START, actions).acks| && Run(START, actions).acks[i].Delivered?
    ensures Run(START, actions).acks[i].inputId in Run(START, actions).receipts
  {
    RunInv(START, actions);
  }

  // An input is written in this state: to the registered session of its key, under the
  // launch registered there, with no other launch pending, and for the first time.
  ghost predicate Writes(s: Desk, a: Action, w: Write) {
    && a.Input?
    && a.frame.inputId == Some(w.inputId) && a.frame.launchId == w.launchId
    && a.frame.key in s.table.ptys && w.session == s.table.ptys[a.frame.key]
    && w.launchId == Active(s.table, a.frame.key)
    && (a.frame.key in s.table.generations ==> s.table.generations[a.frame.key].launchId == w.launchId)
    && Refusal(a.frame, a.health).None?
    && w.inputId !in s.receipts && w.inputId in Step(s, a).receipts
  }

  // One step writes one such input, or none. A rejection stores nothing.
  lemma StepWrites(s: Desk, a: Action)
    ensures var t := Step(s, a);
            && (t.written == s.written
                || exists w :: t.written == s.written + [w] && Writes(s, a, w))
            && (t.acks != s.acks && t.acks[|s.acks|].Rejected? ==> t.receipts == s.receipts && t.written == s.written)
  {
    var t := Step(s, a);
    if t.written != s.written {
      assert Writes(s, a, t.written[|s.written|]);
    }
  }

  lemma {:induction false} RunLast(s: Desk, actions: seq<Action>)
    requires actions != []
    ensures Run(s, actions) == Step(Run(s, actions[..|actions| - 1]), actions[|actions| - 1])
    decreases |actions|
  {
    var a := actions[0];
    if |actions| == 1 {
      assert actions[1..] == [] && actions[..0] == [];
    } else {
      RunLast(Step(s, a), actions[1..]);
      assert actions[1..][..|actions| - 2] == actions[..|actions| - 1][1..];
    }
  }

  // Whatever is written in a run was written by one step of it, to the session and
  // launch registered at that moment, with no other launch pending.
  lemma {:induction false} WritesToRegisteredLaunch(actions: seq<Action>, i: nat)
    requires i < |Run(START, actions).written|
    ensures exists n :: 0 <= n < |actions|
                     && Writes(Run(START, actions[..n]), actions[n], Run(START, actions).written[i])
    decreases |actions|
  {
    var m := |actions| - 1;
    var before := actions[..m];
    RunLast(START, actions);
    StepWrites(Run(START, before), actions[m]);
    if i < |Run(START, before).written| {
      WritesToRegisteredLaunch(before, i);
      var n :| 0 <= n < m && Writes(Run(START, before[..n]), before[n], Run(START, before).written[i]);
      assert before[..n] == actions[..n];
    }
  }

  // The step stores the receipt of this input, and the write that follows fails.
  predicate Loses(s: Desk, a: Action, id: string) {
    && a.Input? && a.frame.inputId == Some(id)
    && Reaches(s.table, a.frame).Some?
    && Refusal(a.frame, a.health).None?
    && SpoolStores.ValidInputId(id) && id !in s.receipts
    && a.fault.FailsAfterReceipt?
  }

  predicate Lost(s: Desk, actions: seq<Action>, id: string)
    decreases |actions|
  {
    actions != [] && (Loses(s, actions[0], id) || Lost(Step(s, actions[0]), actions[1..], id))
  }

  ghost predicate WasWritten(s: Desk, id: string) {
    exists i :: 0 <= i < |s.written| && s.written[i].inputId == id
  }

  lemma StepLoses(s: Desk, a: Action, id: string)
    requires Inv(s)
    ensures var t := Step(s, a);
            && (WasWritten(t, id) <==> WasWritten(s, id) || (id !in s.receipts && id in t.receipts && !Loses(s, a, id)))
            && (Loses(s, a, id) ==> id in t.receipts)
  {
    var t := Step(s, a);
    if WasWritten(s, id) {
      var i :| 0 <= i < |s.written| && s.written[i].inputId == id;
      assert t.written[i] == s.written[i];
    }
    if id !in s.receipts && id in t.receipts && !Loses(s, a, id) {
      assert t.written[|s.written|].inputId == id;
    }
  }

  lemma {:induction false} NeverLostTwice(s: Desk, actions: seq<Action>, id: string)
    requires id in s.receipts
    ensures !Lost(s, actions, id)
    decreases |actions|
  {
    if actions != [] {
      NeverLostTwice(Step(s, actions[0]), actions[1..], id);
    }
  }

  lemma {:induction false} ReceiptRun(s: Desk, actions: seq<Action>, id: string)
    requires Inv(s)
    ensures var t := Run(s, actions);
            && (WasWritten(t, id) <==> WasWritten(s, id) || (id !in s.receipts && id in t.receipts && !Lost(s, actions, id)))
            && (id in s.receipts ==> id in t.receipts)
    decreases |actions|
  {
    if actions != [] {
      var u := Step(s, actions[0]);
      StepInv(s, actions[0]);
      StepLoses(s, actions[0], id);
      ReceiptRun(u, actions[1..], id);
      if id in u.receipts {
        NeverLostTwice(u, actions[1..], id);
      }
    }
  }

  // A delivered input was written, unless one step of the run stored its receipt and
  // then failed: exactly then it is acknowledged and never written.
  lemma DeliveredWasWritten(actions: seq<Action>, i: nat)
    requires i < |Run(START, actions).acks| && Run(START, actions).acks[i].Delivered?
    ensures var s := Run(START, actions); var id := s.acks[i].inputId;
            WasWritten(s, id) <==> !Lost(START, actions, id)
  {
    RunInv(START, actions);
    ReceiptRun(START, actions, Run(START, actions).acks[i].inputId);
  }

  // It happens: the retry of such an input is acknowledged and never written.
  lemma LostButAcknowledged(key: Key, id: string)
    requires SpoolStores.ValidInputId(id)
    ensures var t := NO_TABLE.(ptys := map[key := 0], launchIds := map[key := None]);
            var f := InputFrame(key, Some(id), None, true);
            var s := Run(START, [Others(t), Input(f, Health(true, true), FailsAfterReceipt),
                                 Input(f, Health(true, true), NoFault)]);
            s.acks == [Delivered(id)] && s.written == []
  {
    var t := NO_TABLE.(ptys := map[key := 0], launchIds := map[key := None]);
    var f := InputFrame(key, Some(id), None, true);
    var a, b, c := Others(t), Input(f, Health(true, true), FailsAfterReceipt), Input(f, Health(true, true), NoFault);
    assert [a, b, c][1..] == [b, c] && [b, c][1..] == [c] && [c][1..] == [];
    var s1 := Step(START, a);
    var s2 := Step(s1, b);
    var s3 := Step(s2, c);
    assert Run(START, [a, b, c]) == Run(s1, [b, c]) == Run(s2, [c]) == Run(s3, []) == s3;
  }
}
