// The turns of a per-turn agent session: a bounded queue, one worker that starts a
// process per turn, and the boundary event every turn ends with. Output callbacks do
// not fail; a step runs from one suspension point to the next.
module Turns {
  import opened Common

  const MAX_QUEUED_TURNS := 16

  type Turn = string

  // Where the worker is suspended.
  datatype Stage =
    | Idle                    // no worker task
    | LoopHead                // about to look at the queue
    | Echoed                  // after the echo of the user's message
    | Configured              // after the session configuration
    | Launching               // the child is being started
    | Reading                 // the child's transcript is being read
    | Exiting                 // the transcript ended, the exit is awaited
    | Failing                 // the error event is out, the boundary is not

  // What the worker meets next.
  datatype Event =
    | Proceeds
    | Raises                  // any exception but a cancellation
    | Boundary                // the transcript marks the end of the turn
    | BoundaryUnsaved         // ... and the context marker cannot be stored
  {
    predicate Marks() {
      Boundary? || BoundaryUnsaved?
    }
  }

  // How a dispatched turn went: the boundary events it emitted, what the worker met
  // during the turn, and whether the session was alive at the end.
  datatype Report = Report(turn: Turn, ends: nat, events: seq<Event>, alive: bool)

  datatype State = State(
    alive: bool,
    queue: seq<Turn>,
    stage: Stage,
    endSeen: bool,
    // history
    accepted: seq<Turn>,
    dispatched: seq<Turn>,
    ends: nat,                // boundary events of the turn being dispatched
    events: seq<Event>,       // what the worker met during that turn
    reports: seq<Report>)

  const START := State(true, [], Idle, false, [], [], 0, [], [])

  datatype Action =
    | WriteTurn(turn: Turn)
    | Kill
    | Work(event: Event)
    | CancelWorker            // after a kill

  function Accepts(s: State): bool {
    s.alive && |s.queue| < MAX_QUEUED_TURNS
  }

  function Enqueue(s: State, turn: Turn): State {
    if !Accepts(s) then s
    else s.(queue := s.queue + [turn], accepted := s.accepted + [turn],
            stage := if s.stage.Idle? then LoopHead else s.stage)
  }

  function Killed(s: State): State {
    s.(alive := false, queue := [])
  }

  // The turn in hand is over.
  function Over(s: State): State {
    if s.dispatched == [] then s
    else s.(stage := LoopHead,
            reports := s.reports + [Report(s.dispatched[|s.dispatched| - 1], s.ends, s.events, s.alive)])
  }

  // The error handlers: silent when the session is dead.
  function Fails(s: State): State {
    if !s.alive then Over(s) else s.(stage := Failing)
  }

  function EmitEnd(s: State): State {
    s.(ends := s.ends + 1)
  }

  // The head of the loop: the next turn, or the end of the worker.
  function NextTurn(s: State, event: Event): State {
    if s.alive && s.queue != [] then
      var t := s.(queue := s.queue[1..], dispatched := s.dispatched + [s.queue[0]], endSeen := false,
                  ends := 0, events := [event]);
      if event.Raises? then Fails(t) else t.(stage := Echoed)
    else s.(queue := [], stage := Idle)
  }

  // The same turn with what the worker meets next.
  function Met(s: State, event: Event): State {
    s.(events := s.events + [event])
  }

  // One step inside a turn.
  function Advance(s: State, event: Event): State {
    match s.stage
    case Echoed =>
      if !s.alive then Over(s) else if event.Raises? then Fails(s) else s.(stage := Configured)
    case Configured =>
      if !s.alive then Over(s) else if event.Raises? then Fails(s) else s.(stage := Launching)
    case Launching =>
      if event.Raises? then Fails(s) else if !s.alive then Over(s) else s.(stage := Reading)
    case Reading =>
      (match event
       case Raises => Fails(s)
       case Proceeds => s.(stage := Exiting)
       case Boundary => if s.endSeen then s else EmitEnd(s.(endSeen := true))
       case BoundaryUnsaved => if s.endSeen then s else Killed(EmitEnd(s.(endSeen := true))))
    case Exiting =>
      if event.Raises? then Fails(s)
      else Over(if s.endSeen then s else EmitEnd(s.(endSeen := true)))
    case Failing => Over(EmitEnd(s))
    case _ => s
  }

  // Only a transcript that is being read marks a boundary.
  function Worked(s: State, event: Event): State {
    if event.Marks() && !s.stage.Reading? then s
    else
      match s.stage
      case Idle => s
      case LoopHead => NextTurn(s, event)
      case _ => Advance(Met(s, event), event)
  }

  function Step(s: State, a: Action): State {
    match a
    case WriteTurn(turn) => Enqueue(s, turn)
    case Kill => Killed(s)
    case Work(event) => Worked(s, event)
    case CancelWorker => if s.alive then s else s.(queue := [], stage := Idle)
  }

  // ---- Invariant -------------------------------------------------------------------------

  // Between the first step of a turn and its report.
  predicate InTurn(stage: Stage) {
    !stage.Idle? && !stage.LoopHead?
  }

  ghost predicate Marked(events: seq<Event>) {
    exists i :: 0 <= i < |events| && events[i].Marks()
  }

  // Something was raised after the transcript had marked the end of the turn.
  ghost predicate RaisedAfterBoundary(events: seq<Event>) {
    exists i, j :: 0 <= i < j < |events| && events[i].Marks() && events[j].Raises?
  }

  ghost predicate NothingRaised(events: seq<Event>) {
    forall i :: 0 <= i < |events| ==> !events[i].Raises?
  }

  // A boundary was emitted for every boundary seen, nothing was emitted before the
  // transcript is read, and nothing was raised unless the turn is failing.
  ghost predicate EndsInv(s: State) {
    && (InTurn(s.stage) ==> s.dispatched != [] && s.ends == if s.endSeen then 1 else 0)
    && (InTurn(s.stage) ==> (s.endSeen <==> Marked(s.events)))
    && (InTurn(s.stage) && !s.stage.Failing? ==> NothingRaised(s.events))
    && (s.stage.Failing? ==> (s.endSeen <==> RaisedAfterBoundary(s.events)))
  }

  ghost predicate ReportOk(r: Report) {
    && (r.alive ==> r.ends == if RaisedAfterBoundary(r.events) then 2 else 1)
    && r.ends <= 2
  }

  ghost predicate Inv(s: State) {
    && EndsInv(s)
    && |s.queue| <= MAX_QUEUED_TURNS
    && (s.alive ==> s.accepted == s.dispatched + s.queue)
    && s.dispatched <= s.accepted
    && (s.alive && s.queue != [] ==> !s.stage.Idle?)
    && (forall i :: 0 <= i < |s.reports| ==> ReportOk(s.reports[i]))
    && |s.reports| <= |s.dispatched| - (if InTurn(s.stage) then 1 else 0)
    && (s.alive ==> |s.reports| == |s.dispatched| - (if InTurn(s.stage) then 1 else 0))
    && (s.alive ==> forall i :: 0 <= i < |s.reports| ==> s.reports[i].turn == s.dispatched[i])
  }

  // What one more event adds to the history of a turn.
  lemma OneMore(events: seq<Event>, event: Event)
    ensures Marked(events + [event]) <==> Marked(events) || event.Marks()
    ensures NothingRaised(events + [event]) <==> NothingRaised(events) && !event.Raises?
    ensures RaisedAfterBoundary(events + [event]) <==> RaisedAfterBoundary(events) || (Marked(events) && event.Raises?)
    ensures NothingRaised(events) ==> !RaisedAfterBoundary(events)
  {
    var more := events + [event];
    assert more[|events|] == event;
    if Marked(events) {
      var i :| 0 <= i < |events| && events[i].Marks();
      assert more[i].Marks();
    }
    if RaisedAfterBoundary(events) {
      var i, j :| 0 <= i < j < |events| && events[i].Marks() && events[j].Raises?;
      assert more[i].Marks() && more[j].Raises?;
    }
    assert forall i :: 0 <= i < |events| ==> more[i] == events[i];
  }

  // The turn is over: what it emitted is what its events say.
  lemma OverInv(s: State, t: State)
    requires Inv(s) && InTurn(s.stage)
    requires t == s.(ends := t.ends, endSeen := t.endSeen, events := t.events)
    requires s.alive ==> t.ends == if RaisedAfterBoundary(t.events) then 2 else 1
    requires t.ends <= 2
    ensures Inv(Over(t))
  {
  }

  lemma NextTurnInv(s: State, event: Event)
    requires Inv(s) && s.stage.LoopHead? && !event.Marks()
    ensures Inv(NextTurn(s, event))
  {
    if s.alive && s.queue != [] {
      assert s.queue == [s.queue[0]] + s.queue[1..];
      assert s.dispatched + s.queue == s.dispatched + [s.queue[0]] + s.queue[1..];
      OneMore([], event);
      assert [] + [event] == [event];
    }
  }

  lemma WorkedInv(s: State, event: Event)
    requires Inv(s)
    ensures Inv(Worked(s, event))
  {
    if InTurn(s.stage) && (event.Marks() ==> s.stage.Reading?) {
      OneMore(s.events, event);
      if s.stage.Failing? {
        FailedInv(s, event);
      } else if event.Raises? {
        RaisedInv(s);
      } else if s.stage.Reading? {
        ReadInv(s, event);
      } else {
        ProceededInv(s);
      }
    } else if s.stage.LoopHead? && !event.Marks() {
      NextTurnInv(s, event);
    }
  }

  lemma FailedInv(s: State, event: Event)
    requires Inv(s) && s.stage.Failing? && !event.Marks()
    ensures Inv(Worked(s, event))
  {
    OneMore(s.events, event);
    StillFailing(s, event);
    OverInv(s, EmitEnd(Met(s, event)));
  }

  lemma StillFailing(s: State, event: Event)
    requires EndsInv(s) && s.stage.Failing? && !event.Marks()
    ensures RaisedAfterBoundary(s.events + [event]) <==> s.endSeen
  {
    OneMore(s.events, event);
  }

  lemma RaisedInv(s: State)
    requires Inv(s) && InTurn(s.stage) && !s.stage.Failing?
    ensures Inv(Worked(s, Raises))
  {
    OneMore(s.events, Raises);
    if !s.alive {
      OverInv(s, Met(s, Raises));
    }
  }

  lemma ReadInv(s: State, event: Event)
    requires Inv(s) && s.stage.Reading? && !event.Raises?
    ensures Inv(Worked(s, event))
  {
    OneMore(s.events, event);
  }

  lemma ProceededInv(s: State)
    requires Inv(s) && InTurn(s.stage) && !s.stage.Failing? && !s.stage.Reading?
    ensures Inv(Worked(s, Proceeds))
  {
    OneMore(s.events, Proceeds);
    var t := Met(s, Proceeds);
    if s.stage.Exiting? {
      OverInv(s, if s.endSeen then t else EmitEnd(t.(endSeen := true)));
    } else if !s.alive {
      OverInv(s, t);
    }
  }

  lemma StepInv(s: State, a: Action)
    requires Inv(s)
    ensures Inv(Step(s, a))
  {
    match a
    case WriteTurn(turn) =>
      if Accepts(s) {
        assert s.dispatched + s.queue + [turn] == s.dispatched + (s.queue + [turn]);
      }
    case Kill =>
    case Work(event) => WorkedInv(s, event);
    case CancelWorker =>
  }

  function Run(s: State, actions: seq<Action>): State
    decreases |actions|
  {
    if actions == [] then s else Run(Step(s, actions[0]), actions[1..])
  }

  lemma {:induction false} RunInv(s: State, actions: seq<Action>)
    requires Inv(s)
    ensures Inv(Run(s, actions))
    decreases |actions|
  {
    if actions != [] {
      StepInv(s, actions[0]);
      RunInv(Step(s, actions[0]), actions[1..]);
    }
  }

  // ---- Main results ---------------------------------------------------------------------------

  // Turns are dispatched in the order they were accepted, at most sixteen wait, and
  // while the session lives none is lost and none waits without a worker.
  lemma DispatchedInOrder(actions: seq<Action>)
    ensures var s := Run(START, actions);
            && s.dispatched <= s.accepted
            && |s.queue| <= MAX_QUEUED_TURNS
            && (s.alive ==> s.accepted == s.dispatched + s.queue)
            && (s.alive && s.queue != [] ==> !s.stage.Idle?)
  {
    RunInv(START, actions);
  }

  // While the session lives every dispatched turn but the one in hand is reported, in
  // order. One that finished alive emitted two boundaries if something was raised after
  // its transcript had marked the end, and exactly one otherwise.
  lemma OneBoundaryPerTurn(actions: seq<Action>, i: nat)
    requires i < |Run(START, actions).reports|
    ensures var s := Run(START, actions); var r := s.reports[i];
            && (s.alive ==> i < |s.dispatched| && r.turn == s.dispatched[i])
            && (r.alive ==> (r.ends == 1 <==> !RaisedAfterBoundary(r.events)) && 1 <= r.ends <= 2)
            && (s.alive ==> |s.reports| == |s.dispatched| - (if InTurn(s.stage) then 1 else 0))
  {
    RunInv(START, actions);
    assert ReportOk(Run(START, actions).reports[i]);
  }

  // At the failing step the guard that decides is whether the boundary was seen: the
  // error handlers emit one without looking at it.
  lemma FailureEndsAgain(actions: seq<Action>)
    requires var s := Run(START, actions); s.alive && InTurn(s.stage) && !s.stage.Failing?
    ensures var s := Run(START, actions);
            Reports(s, Run(START, actions + [Work(Raises), Work(Proceeds)]), if s.endSeen then 2 else 1)
  {
    RunInv(START, actions);
    RunTwo(START, actions, Work(Raises), Work(Proceeds));
    FailsOnce(Run(START, actions));
  }

  // The turn in hand is reported alive with this many boundaries.
  ghost predicate Reports(s: State, t: State, ends: nat) {
    && |t.reports| == |s.reports| + 1
    && t.reports[|s.reports|].alive
    && t.reports[|s.reports|].ends == ends
  }

  lemma FailsOnce(s: State)
    requires EndsInv(s) && s.alive && InTurn(s.stage) && !s.stage.Failing?
    ensures Reports(s, Worked(Worked(s, Raises), Proceeds), if s.endSeen then 2 else 1)
  {
    assert Worked(s, Raises) == Met(s, Raises).(stage := Failing);
    assert Worked(Worked(s, Raises), Proceeds) == Over(EmitEnd(Met(Met(s, Raises), Proceeds).(stage := Failing)));
  }

  lemma {:induction false} RunTwo(s: State, actions: seq<Action>, a: Action, b: Action)
    ensures Run(s, actions + [a, b]) == Step(Step(Run(s, actions), a), b)
    decreases |actions|
  {
    if actions == [] {
      assert [] + [a, b] == [a, b] && [a, b][1..] == [b] && [b][1..] == [];
      assert Run(Step(Step(s, a), b), []) == Step(Step(s, a), b);
      assert Run(Step(s, a), [b]) == Run(Step(Step(s, a), b), [b][1..]);
      assert Run(s, [a, b]) == Run(Step(s, a), [a, b][1..]);
    } else {
      assert (actions + [a, b])[1..] == actions[1..] + [a, b];
      RunTwo(Step(s, actions[0]), actions[1..], a, b);
    }
  }

  function ReadingTurn(turn: Turn): State {
    START.(stage := Reading, accepted := [turn], dispatched := [turn],
           events := [Proceeds, Proceeds, Proceeds, Proceeds])
  }

  // A written turn reaches its transcript in four steps.
  lemma ReachesReading(turn: Turn, rest: seq<Action>)
    ensures var p := Work(Proceeds);
            Run(START, [WriteTurn(turn)] + ([p] + ([p] + ([p] + ([p] + rest))))) == Run(ReadingTurn(turn), rest)
  {
    var p := Work(Proceeds);
    var r1, r2, r3 := [p] + rest, [p] + ([p] + rest), [p] + ([p] + ([p] + rest));
    var written := START.(queue := [turn], accepted := [turn], stage := LoopHead);
    assert START.queue + [turn] == [turn] && START.accepted + [turn] == [turn] && START.dispatched + [turn] == [turn];
    assert [turn][1..] == [];
    Unroll(START, WriteTurn(turn), [p] + r3);
    assert Step(START, WriteTurn(turn)) == written;
    Unroll(written, p, r3);
    var echoed := ReadingTurn(turn).(stage := Echoed, events := [Proceeds]);
    assert Step(written, p) == echoed;
    Unroll(echoed, p, r2);
    var configured := echoed.(stage := Configured, events := [Proceeds, Proceeds]);
    assert Step(echoed, p) == configured;
    Unroll(configured, p, r1);
    var launching := echoed.(stage := Launching, events := [Proceeds, Proceeds, Proceeds]);
    assert Step(configured, p) == launching;
    Unroll(launching, p, rest);
    assert Step(launching, p) == ReadingTurn(turn);
  }

  ghost predicate EndedTwice(s: State, turn: Turn) {
    && s.alive && |s.reports| == 1
    && s.reports[0].turn == turn && s.reports[0].alive && s.reports[0].ends == 2
  }

  // A boundary, then a line whose handling raises: two boundaries.
  lemma LateFailure(turn: Turn)
    ensures EndedTwice(Run(ReadingTurn(turn), [Work(Boundary)] + ([Work(Raises)] + ([Work(Proceeds)] + []))), turn)
  {
    var p := Work(Proceeds);
    var marked := Met(ReadingTurn(turn), Boundary).(endSeen := true, ends := 1);
    Unroll(ReadingTurn(turn), Work(Boundary), [Work(Raises)] + ([p] + []));
    assert Step(ReadingTurn(turn), Work(Boundary)) == marked;
    var failing := Met(marked, Raises).(stage := Failing);
    Unroll(marked, Work(Raises), [p] + []);
    assert Step(marked, Work(Raises)) == failing;
    Unroll(failing, p, []);
    assert Step(failing, p) == Over(EmitEnd(Met(failing, Proceeds)));
  }

  // The exception happens: a transcript goes on after its end with a line that raises.
  lemma LateFailureEndsTwice(turn: Turn)
    ensures exists actions :: EndedTwice(Run(START, actions), turn)
  {
    var p := Work(Proceeds);
    var rest := [Work(Boundary)] + ([Work(Raises)] + ([p] + []));
    ReachesReading(turn, rest);
    LateFailure(turn);
    var actions := [WriteTurn(turn)] + ([p] + ([p] + ([p] + ([p] + rest))));
    assert EndedTwice(Run(START, actions), turn);
  }

  lemma Unroll(s: State, a: Action, rest: seq<Action>)
    ensures Run(s, [a] + rest) == Run(Step(s, a), rest)
  {
    assert ([a] + rest)[1..] == rest;
  }

  // ---- Every accepted turn gets its turn -----------------------------------------------------

  // A turn is accepted if and only if the session lives and fewer than sixteen wait. It then
  // waits behind the others, and an idle worker starts.
  lemma WriteAccepts(s: State, turn: Turn)
    ensures var t := Step(s, WriteTurn(turn));
            if s.alive && |s.queue| < 16
            then && t.accepted == s.accepted + [turn] && t.queue == s.queue + [turn]
                 && !t.stage.Idle? && (!s.stage.Idle? ==> t.stage == s.stage)
            else t == s
  {
  }

  // A kill drops what waits; the worker ends no turn more with an error event.
  lemma KillDrops(s: State)
    ensures var t := Step(s, Kill); !t.alive && t == s.(alive := false, queue := [])
    ensures var t := Step(Step(s, Kill), CancelWorker); t.stage.Idle? && t.reports == s.reports && t.dispatched == s.dispatched
  {
  }

  // The worker's next step, while the session lives and nothing goes wrong.
  ghost predicate Onward(s: State, t: State) {
    && t.alive && t.accepted == s.accepted
    && match s.stage
       case LoopHead =>
         if s.queue == [] then t.stage.Idle? && t.queue == [] && t.dispatched == s.dispatched && t.reports == s.reports
         else && t.stage.Echoed? && t.reports == s.reports
              && t.dispatched == s.dispatched + [s.queue[0]] && t.queue == s.queue[1..]
       case Idle => t == s
       case _ =>
         && t.queue == s.queue && t.dispatched == s.dispatched
         && Rank(t.stage) < Rank(s.stage)
         && (t.stage.LoopHead? <==> |t.reports| == |s.reports| + 1)
         && (!t.stage.LoopHead? ==> t.reports == s.reports && InTurn(t.stage))
  }

  // How many steps a turn has before it.
  function Rank(stage: Stage): nat {
    match stage
    case Echoed => 5
    case Configured => 4
    case Launching => 3
    case Reading => 2
    case Exiting => 1
    case Failing => 1
    case _ => 0
  }

  lemma ProceedsOnward(s: State)
    requires Inv(s) && s.alive
    ensures Onward(s, Step(s, Work(Proceeds)))
  {
  }

  // From any point of any run of a living session, enough undisturbed steps of the worker
  // dispatch and report every turn accepted so far.
  lemma EveryTurnDispatched(actions: seq<Action>)
    requires Run(START, actions).alive
    ensures exists more: seq<Action> ::
              var s := Run(START, actions); var t := Run(s, more);
              && t.alive && t.accepted == s.accepted == t.dispatched && |t.reports| == |t.accepted| && t.stage.Idle?
  {
    RunInv(START, actions);
    var more := Undisturbed(Run(START, actions));
  }

  lemma {:induction false} Undisturbed(s: State) returns (more: seq<Action>)
    requires Inv(s) && s.alive
    ensures var t := Run(s, more);
            && t.alive && t.accepted == s.accepted == t.dispatched && |t.reports| == |t.accepted| && t.stage.Idle?
    decreases |s.queue|, Rank(s.stage), if s.stage.LoopHead? then 1 else 0
  {
    if s.stage.Idle? {
      more := [];
      assert s.queue == [] && s.dispatched + [] == s.dispatched;
    } else {
      var p := Work(Proceeds);
      var t := Step(s, p);
      ProceedsOnward(s);
      StepInv(s, p);
      var rest := Undisturbed(t);
      more := [p] + rest;
      Unroll(s, p, rest);
    }
  }

  // ---- The queue as the session keeps it ------------------------------------------------------------

  class TurnQueue {
    var alive: bool
    var queue: seq<Turn>
    var working: bool
    ghost var accepted: seq<Turn>
    ghost var dispatched: seq<Turn>

    ghost predicate Valid()
      reads this
    {
      && |queue| <= MAX_QUEUED_TURNS
      && (alive ==> accepted == dispatched + queue)
      && dispatched <= accepted
      && (alive && queue != [] ==> working)
    }

    constructor ()
      ensures Valid() && alive && queue == [] && !working && accepted == [] && dispatched == []
    {
      alive, queue, working := true, [], false;
      accepted, dispatched := [], [];
    }

    method Write(turn: Turn) returns (ok: bool)
      requires Valid()
      modifies this
      ensures Valid() && alive == old(alive) && dispatched == old(dispatched)
      ensures ok <==> old(alive) && |old(queue)| < MAX_QUEUED_TURNS
      ensures ok ==> queue == old(queue) + [turn] && accepted == old(accepted) + [turn] && working
      ensures !ok ==> queue == old(queue) && accepted == old(accepted) && working == old(working)
    {
      if !alive || |queue| >= MAX_QUEUED_TURNS {
        return false;
      }
      queue, accepted := queue + [turn], accepted + [turn];
      working := true;
      assert dispatched + old(queue) + [turn] == dispatched + queue;
      ok := true;
    }

    // The next turn of the worker, or its end.
    method Next() returns (turn: Option<Turn>)
      requires Valid() && working
      modifies this
      ensures Valid() && alive == old(alive) && accepted == old(accepted)
      ensures turn.None? <==> !old(alive) || old(queue) == []
      ensures turn.None? ==> queue == [] && !working && dispatched == old(dispatched)
      ensures turn.Some? ==> old(queue) == [turn.value] + queue && dispatched == old(dispatched) + [turn.value] && working
    {
      if !alive || queue == [] {
        queue, working := [], false;
        return None;
      }
      turn := Some(queue[0]);
      dispatched := dispatched + [queue[0]];
      assert old(queue) == [queue[0]] + queue[1..];
      assert old(dispatched) + old(queue) == dispatched + queue[1..];
      queue := queue[1..];
    }

    method Kill()
      requires Valid()
      modifies this
      ensures Valid() && !alive && queue == [] && dispatched == old(dispatched) && accepted == old(accepted)
    {
      alive, queue := false, [];
    }
  }
}
