/** Which answers requests get, and in which order, judged by the decisions taken along the run: a handler
    that tests the mailbox or loads the ring's indices, a chassis that does or does not acknowledge.
    Main results: in every run these decisions are, kind by kind and in order, the answers given and the
    requests still on their way to one (AnsweredInOrder); a grab is answered after three sleeps and a
    release after one (SleepsCount); and every state leads to one in which every call has been answered
    (EveryCallAnswered). */
module AcallOrder {
  import opened Basics
  import opened Machine
  import opened Acall

  /** Requests by what was decided about them, and the answers that INITs are due. */
  datatype Ledger = Ledger(inits: seq<Job>, queued: seq<Job>, refused: seq<Job>, ends: seq<Answer>)

  function Blank(): Ledger {
    Ledger([], [], [], [])
  }

  function Plus(a: Ledger, b: Ledger): Ledger {
    Ledger(a.inits + b.inits, a.queued + b.queued, a.refused + b.refused, a.ends + b.ends)
  }

  /** What a step decides: an INIT is refused if one is pending, an arm command if eight are queued when
      the indices are loaded; an INIT succeeds if INIT and then CONFIG are acknowledged. */
  function Decided(s: State, a: Action): Ledger {
    match a
    case HandlerStep =>
      (match s.handler
       case InitTest(j) => if s.pending then Ledger([], [], [j], []) else Ledger([j], [], [], [])
       case PushLoad(j) =>
         if j.Plain? then Blank() else if |s.ring| >= 8 then Ledger([], [], [j], []) else Ledger([], [j], [], [])
       case _ => Blank())
    case ChassisStep(ok) =>
      (match s.chassis
       case AskInit(j) => if ok then Blank() else Ledger([], [], [], [Answer(j, 0)])
       case AskConfig(j) => Ledger([], [], [], [Answer(j, if ok then 1 else 0)])
       case _ => Blank())
    case _ => Blank()
  }

  function Decisions(s: State, run: seq<Action>): Ledger
    requires Exec(Moves(true), s, run).Some?
    decreases |run|
  {
    if run == [] then Blank()
    else Plus(Decided(s, run[0]), Decisions(Next(true, s, run[0]).value, run[1..]))
  }

  // ---- what a state shows ----

  function Select<T>(f: Answer -> seq<T>, answers: seq<Answer>): seq<T> {
    if answers == [] then []
    else Select(f, answers[..|answers| - 1]) + f(answers[|answers| - 1])
  }

  function InitDone(a: Answer): seq<Job> {
    if a.job.Init? && a.result != 0xFFFF_FFFF then [a.job] else []
  }

  function ArmDone(a: Answer): seq<Job> {
    if !a.job.Init? && a.result != 0xFFFF_FFFF then [a.job] else []
  }

  function Refusal(a: Answer): seq<Job> {
    if a.result == 0xFFFF_FFFF then [a.job] else []
  }

  function InitAnswer(a: Answer): seq<Answer> {
    if a.job.Init? && a.result != 0xFFFF_FFFF then [a] else []
  }

  /** The accepted INIT that the chassis task has taken. */
  function AtTask(c: Chassis, slot: Job): seq<Job> {
    match c
    case LoadRid => [slot]
    case LoadArgs(rid) => if slot.Init? then [Init(rid, slot.args)] else []
    case AskInit(j) => [j]
    case AskConfig(j) => [j]
    case Complete(j, _) => [j]
    case _ => []
  }

  /** The accepted INIT that a handler is storing. */
  function BeingStored(h: Handler): seq<Job> {
    match h
    case InitStoreRid(j) => [j]
    case InitStoreArgs(j) => [j]
    case InitPublish(j) => [j]
    case _ => []
  }

  /** The accepted INITs that wait, first come first. */
  function InitsUnderWay(s: State): seq<Job> {
    AtTask(s.chassis, Slot(s)) + ((if s.pending then [Slot(s)] else []) + BeingStored(s.handler))
  }

  function Owing(ring: seq<Job>): seq<Job> {
    if ring == [] then [] else Owing(ring[..|ring| - 1]) + (if ring[|ring| - 1].Plain? then [] else [ring[|ring| - 1]])
  }

  function BeingMoved(a: Arm): seq<Job> {
    if a.Moving? || a.Suspended? then [a.job] else []
  }

  function BeingPushed(h: Handler): seq<Job> {
    if h.PushTest? && h.seen < 8 then Owing([h.job]) else []
  }

  /** The accepted arm commands that wait for their answer, first come first. */
  function QueuedUnderWay(s: State): seq<Job> {
    BeingMoved(s.arm) + (Owing(s.ring) + BeingPushed(s.handler))
  }

  function RefusedUnderWay(h: Handler): seq<Job> {
    match h
    case Refuse(j) => [j]
    case PushTest(j, seen) => if seen >= 8 then Owing([j]) else []
    case _ => []
  }

  function EndUnderWay(c: Chassis): seq<Answer> {
    if c.Complete? then [Answer(c.job, if c.ok then 1 else 0)] else []
  }

  function ShownInits(s: State): seq<Job> {
    Select(InitDone, s.answers) + InitsUnderWay(s)
  }

  function ShownQueued(s: State): seq<Job> {
    Select(ArmDone, s.answers) + QueuedUnderWay(s)
  }

  function ShownRefused(s: State): seq<Job> {
    Select(Refusal, s.answers) + RefusedUnderWay(s.handler)
  }

  function ShownEnds(s: State): seq<Answer> {
    Select(InitAnswer, s.answers) + EndUnderWay(s.chassis)
  }

  /** Answers given, and the requests still to be answered. */
  function Shown(s: State): Ledger {
    Ledger(ShownInits(s), ShownQueued(s), ShownRefused(s), ShownEnds(s))
  }

  // ---- each step shows what it decides ----

  lemma SelectMore<T>(f: Answer -> seq<T>, answers: seq<Answer>, a: Answer)
    ensures Select(f, answers + [a]) == Select(f, answers) + f(a)
  {
    assert (answers + [a])[..|answers|] == answers;
  }

  lemma OwingMore(ring: seq<Job>, j: Job)
    ensures Owing(ring + [j]) == Owing(ring) + Owing([j])
    ensures Owing([j]) == if j.Plain? then [] else [j]
  {
    assert (ring + [j])[..|ring|] == ring;
    assert [j][..0] == [];
  }

  lemma {:induction false} OwingFirst(ring: seq<Job>)
    requires ring != []
    ensures Owing(ring) == Owing(ring[..1]) + Owing(ring[1..])
  {
    var n := |ring| - 1;
    if n > 0 {
      var last := if ring[n].Plain? then [] else [ring[n]];
      OwingFirst(ring[..n]);
      assert ring[..n][..1] == ring[..1] && ring[..n][1..] == ring[1..n];
      assert ring[1..][..n - 1] == ring[1..n] && ring[1..][n - 1] == ring[n];
      calc {
        Owing(ring);
        Owing(ring[..n]) + last;
        Owing(ring[..1]) + Owing(ring[1..n]) + last;
        Owing(ring[..1]) + (Owing(ring[1..n]) + last);
        Owing(ring[..1]) + Owing(ring[1..]);
      }
    } else {
      assert ring[..1] == ring;
    }
  }

  /** The answer a step gives, if any. */
  function Given(s: State, a: Action): Option<Answer> {
    match a
    case HandlerStep => if s.handler.Refuse? then Some(Answer(s.handler.job, REFUSED)) else None
    case ChassisStep(_) =>
      if s.chassis.Complete? then Some(Answer(s.chassis.job, if s.chassis.ok then 1 else 0)) else None
    case ArmStep => if s.arm.Moving? && s.arm.awaits == 0 then Some(Answer(s.arm.job, 0)) else None
    case _ => None
  }

  lemma Gives<T>(f: Answer -> seq<T>, s: State, a: Action)
    requires Next(true, s, a).Some?
    ensures Select(f, Next(true, s, a).value.answers)
         == Select(f, s.answers) + if Given(s, a).Some? then f(Given(s, a).value) else []
  {
    hide Select;
    if Given(s, a).Some? {
      SelectMore(f, s.answers, Given(s, a).value);
    }
  }

  /** The job a step answers with a completion. */
  function Completed(f: Answer -> seq<Job>, s: State, a: Action): seq<Job> {
    if Given(s, a).Some? then f(Given(s, a).value) else []
  }

  lemma InitsHandler(s: State)
    requires ControlInv(s) && s.chassis.Parked? && !s.handler.Ready?
    ensures InitsUnderWay(HandlerNext(s)) == InitsUnderWay(s) + Decided(s, HandlerStep).inits
    ensures Completed(InitDone, s, HandlerStep) == []
  {
  }

  lemma InitsChassis(s: State, ok: bool)
    requires ControlInv(s) && !s.chassis.Parked?
    ensures Completed(InitDone, s, ChassisStep(ok)) + InitsUnderWay(ChassisNext(s, ok)) == InitsUnderWay(s)
    ensures Decided(s, ChassisStep(ok)).inits == []
  {
    hide BeingStored;
    match s.chassis
    case TestPending =>
    case LoadRid =>
    case LoadArgs(rid) =>
    case AskInit(j) =>
    case AskConfig(j) =>
    case Complete(j, _) =>
  }

  lemma InitsArm(s: State)
    requires ControlInv(s) && !s.arm.Sleeping? && !s.arm.Suspended?
    ensures InitsUnderWay(ArmNext(s)) == InitsUnderWay(s)
    ensures Completed(InitDone, s, ArmStep) == []
  {
    hide AtTask, BeingStored;
  }

  lemma Joined<T>(done: seq<T>, now: seq<T>, later: seq<T>, before: seq<T>, decided: seq<T>)
    requires now + later == before + decided
    ensures done + now + later == done + before + decided
  {
    assert done + now + later == done + (now + later) == done + (before + decided);
  }

  lemma InitsStep(s: State, a: Action)
    requires ControlInv(s) && Next(true, s, a).Some?
    ensures ShownInits(Next(true, s, a).value) == ShownInits(s) + Decided(s, a).inits
  {
    hide Select, InitsUnderWay, ControlInv, HandlerNext, ChassisNext, ArmNext;
    var t := Next(true, s, a).value;
    Gives(InitDone, s, a);
    assert Completed(InitDone, s, a) + InitsUnderWay(t) == InitsUnderWay(s) + Decided(s, a).inits by {
      match a
      case HandlerStep => InitsHandler(s);
      case ChassisStep(ok) => InitsChassis(s, ok);
      case ArmStep => InitsArm(s);
      case _ => InitsSame(s, t);
    }
    Joined(Select(InitDone, s.answers), Completed(InitDone, s, a), InitsUnderWay(t), InitsUnderWay(s),
           Decided(s, a).inits);
  }

  lemma InitsSame(s: State, t: State)
    requires Slot(t) == Slot(s) && t.pending == s.pending
    requires AtTask(t.chassis, Slot(s)) == AtTask(s.chassis, Slot(s))
    requires BeingStored(t.handler) == BeingStored(s.handler)
    ensures InitsUnderWay(t) == InitsUnderWay(s)
  {
  }

  lemma QueuedHandler(s: State)
    requires ControlInv(s) && !s.handler.Ready?
    ensures QueuedUnderWay(HandlerNext(s)) == QueuedUnderWay(s) + Decided(s, HandlerStep).queued
    ensures Completed(ArmDone, s, HandlerStep) == []
  {
    hide Owing, BeingMoved;
    if s.handler.PushTest? {
      OwingMore(s.ring, s.handler.job);
    } else if s.handler.PushLoad? {
      OwingMore([], s.handler.job);
    }
  }

  lemma QueuedArm(s: State)
    requires ControlInv(s) && !s.arm.Sleeping? && !s.arm.Suspended?
    ensures Completed(ArmDone, s, ArmStep) + QueuedUnderWay(ArmNext(s)) == QueuedUnderWay(s)
  {
    hide Owing, BeingPushed;
    if s.arm.PopNext? && s.ring != [] {
      OwingFirst(s.ring);
      assert s.ring[..1] == [s.ring[0]];
      OwingMore([], s.ring[0]);
    }
  }

  lemma QueuedChassis(s: State, ok: bool)
    requires ControlInv(s) && !s.chassis.Parked?
    ensures QueuedUnderWay(ChassisNext(s, ok)) == QueuedUnderWay(s)
    ensures Completed(ArmDone, s, ChassisStep(ok)) == [] == Decided(s, ChassisStep(ok)).queued
  {
    hide Owing, BeingPushed, BeingMoved;
  }

  lemma QueuedSame(s: State, t: State)
    requires t.ring == s.ring && BeingMoved(t.arm) == BeingMoved(s.arm)
    requires BeingPushed(t.handler) == BeingPushed(s.handler)
    ensures QueuedUnderWay(t) == QueuedUnderWay(s)
  {
  }

  lemma QueuedStep(s: State, a: Action)
    requires ControlInv(s) && Next(true, s, a).Some?
    ensures ShownQueued(Next(true, s, a).value) == ShownQueued(s) + Decided(s, a).queued
  {
    hide Select, Owing, QueuedUnderWay, ControlInv, HandlerNext, ChassisNext, ArmNext;
    var t := Next(true, s, a).value;
    Gives(ArmDone, s, a);
    assert Completed(ArmDone, s, a) + QueuedUnderWay(t) == QueuedUnderWay(s) + Decided(s, a).queued by {
      match a
      case HandlerStep => QueuedHandler(s);
      case ChassisStep(ok) => QueuedChassis(s, ok);
      case ArmStep => QueuedArm(s);
      case _ => QueuedSame(s, t);
    }
    Joined(Select(ArmDone, s.answers), Completed(ArmDone, s, a), QueuedUnderWay(t), QueuedUnderWay(s),
           Decided(s, a).queued);
  }

  lemma RefusedStep(s: State, a: Action)
    requires ControlInv(s) && Next(true, s, a).Some?
    ensures ShownRefused(Next(true, s, a).value) == ShownRefused(s) + Decided(s, a).refused
  {
    hide Select, Owing;
    Gives(Refusal, s, a);
    if s.handler.PushTest? || s.handler.PushLoad? {
      OwingMore([], s.handler.job);
    }
  }

  lemma EndsStep(s: State, a: Action)
    requires ControlInv(s) && Next(true, s, a).Some?
    ensures ShownEnds(Next(true, s, a).value) == ShownEnds(s) + Decided(s, a).ends
  {
    hide Select;
    Gives(InitAnswer, s, a);
  }

  lemma ShownStep(s: State, a: Action)
    requires ControlInv(s) && Next(true, s, a).Some?
    ensures Shown(Next(true, s, a).value) == Plus(Shown(s), Decided(s, a))
  {
    hide ShownInits, ShownQueued, ShownRefused, ShownEnds, Decided, Next, ControlInv;
    InitsStep(s, a);
    QueuedStep(s, a);
    RefusedStep(s, a);
    EndsStep(s, a);
  }

  lemma PlusAssoc(a: Ledger, b: Ledger, c: Ledger)
    ensures Plus(Plus(a, b), c) == Plus(a, Plus(b, c))
    ensures Plus(a, Blank()) == a == Plus(Blank(), a)
  {
  }

  lemma {:induction false} ShownRun(s: State, run: seq<Action>)
    requires ControlInv(s) && Exec(Moves(true), s, run).Some?
    ensures Shown(Exec(Moves(true), s, run).value) == Plus(Shown(s), Decisions(s, run))
    decreases |run|
  {
    hide Shown, Decided, Next, Plus, ControlInv;
    if run == [] {
      PlusAssoc(Shown(s), Blank(), Blank());
    } else {
      var t := Next(true, s, run[0]).value;
      ControlStep(s, run[0]);
      ShownStep(s, run[0]);
      ShownRun(t, run[1..]);
      PlusAssoc(Shown(s), Decided(s, run[0]), Decisions(t, run[1..]));
    }
  }

  /** In every run that keeps to the priorities: the INITs accepted are, in order, those answered with
      a completion and those under way; so are the arm commands; the refused ones are those answered
      0xFFFFFFFF and the one about to be; and the completions of INITs are, in order, 1 for each that both
      INIT and CONFIG were acknowledged for and 0 for each other. */
  lemma AnsweredInOrder(run: seq<Action>)
    requires Exec(Moves(true), Start(), run).Some?
    ensures var s, d := Exec(Moves(true), Start(), run).value, Decisions(Start(), run);
            && d.inits == Select(InitDone, s.answers) + InitsUnderWay(s)
            && d.queued == Select(ArmDone, s.answers) + QueuedUnderWay(s)
            && d.refused == Select(Refusal, s.answers) + RefusedUnderWay(s.handler)
            && d.ends == Select(InitAnswer, s.answers) + EndUnderWay(s.chassis)
  {
    ShownRun(Start(), run);
    assert Shown(Start()) == Blank();
    PlusAssoc(Blank(), Decisions(Start(), run), Blank());
  }

  // ---- the arm takes its time ----

  /** How often a sequence of the arm has slept and been woken in this run. */
  function Waits(s: State, run: seq<Action>): nat
    requires Exec(Moves(true), s, run).Some?
    decreases |run|
  {
    if run == [] then 0
    else
      (if run[0].ArmTick? && s.arm.Suspended? then 1 else 0) + Waits(Next(true, s, run[0]).value, run[1..])
  }

  /** A grab sleeps three times, a release once. */
  function Sleeps(j: Job): nat {
    if j.Grab? then 3 else if j.Release? then 1 else 0
  }

  /** The sleeps of the commands that have been carried out. */
  function Slept(answers: seq<Answer>): nat {
    if answers == [] then 0
    else
      var last := answers[|answers| - 1];
      Slept(answers[..|answers| - 1]) + if last.result == 0xFFFF_FFFF then 0 else Sleeps(last.job)
  }

  function SleptNow(a: Arm): int {
    if a.Moving? || a.Suspended? then Sleeps(a.job) - a.awaits else 0
  }

  lemma SleptMore(answers: seq<Answer>, a: Answer)
    ensures Slept(answers + [a]) == Slept(answers) + if a.result == 0xFFFF_FFFF then 0 else Sleeps(a.job)
  {
    assert (answers + [a])[..|answers|] == answers;
  }

  lemma SleptStep(s: State, a: Action)
    requires ControlInv(s) && Next(true, s, a).Some?
    ensures var t := Next(true, s, a).value;
            Slept(t.answers) + SleptNow(t.arm)
            == Slept(s.answers) + SleptNow(s.arm) + if a.ArmTick? && s.arm.Suspended? then 1 else 0
  {
    hide Slept;
    if Given(s, a).Some? {
      SleptMore(s.answers, Given(s, a).value);
    }
  }

  lemma {:induction false} SleptRun(s: State, run: seq<Action>)
    requires ControlInv(s) && Exec(Moves(true), s, run).Some?
    ensures var t := Exec(Moves(true), s, run).value;
            Slept(t.answers) + SleptNow(t.arm) == Slept(s.answers) + SleptNow(s.arm) + Waits(s, run)
    decreases |run|
  {
    hide ControlInv, Next, Slept, SleptNow;
    if run != [] {
      ControlStep(s, run[0]);
      SleptStep(s, run[0]);
      SleptRun(Next(true, s, run[0]).value, run[1..]);
    }
  }

  /** A grab is answered only after its three sleeps and a release after its one, and no sequence sleeps
      more: at every moment the sleeps so far are those of the commands carried out and of the one under
      way. */
  lemma SleepsCount(run: seq<Action>)
    requires Exec(Moves(true), Start(), run).Some?
    ensures var s := Exec(Moves(true), Start(), run).value;
            Slept(s.answers) + SleptNow(s.arm) == Waits(Start(), run)
  {
    SleptRun(Start(), run);
  }

  // ---- nothing is stuck ----

  /** Nothing is under way. */
  predicate AtRest(s: State) {
    s.handler.Ready? && s.chassis.Parked? && s.arm.Sleeping? && !s.pending && s.ring == []
  }

  /** The chassis task goes on to its await. */
  lemma {:induction false} ChassisParks(s0: State, run: seq<Action>, s: State) returns (run': seq<Action>, s': State)
    requires Exec(Moves(true), s0, run) == Some(s)
    ensures Exec(Moves(true), s0, run') == Some(s') && run <= run' && s'.chassis.Parked?
    ensures s'.calls == s.calls && s'.handler == s.handler && s'.arm == s.arm && s'.ring == s.ring
    ensures s.chassis.TestPending? || !s.pending ==> !s'.pending
    decreases match s.chassis
              case TestPending => 6
              case LoadRid => 5
              case LoadArgs(_) => 4
              case AskInit(_) => 3
              case AskConfig(_) => 2
              case Complete(_, _) => 1
              case Parked => 0
  {
    run', s' := run, s;
    if !s.chassis.Parked? {
      run', s' := Go(Moves(true), s0, run, s, ChassisStep(true));
      run', s' := ChassisParks(s0, run', s');
    }
  }

  /** Steps of the arm until it sleeps on an empty ring. */
  lemma {:induction false} ArmRests(s0: State, run: seq<Action>, s: State) returns (run': seq<Action>, s': State)
    requires Exec(Moves(true), s0, run) == Some(s) && (s.arm.Suspended? ==> s.arm.awaits > 0)
    ensures Exec(Moves(true), s0, run') == Some(s') && run <= run' && s'.arm.Sleeping? && s'.ring == []
    ensures s'.calls == s.calls && s'.handler == s.handler && s'.chassis == s.chassis && s'.pending == s.pending
    decreases |s.ring|,
              match s.arm
              case Moving(_, awaits) => 2 * awaits + 3
              case Suspended(_, awaits) => 2 * awaits + 2
              case Sleeping => if s.ring == [] then 0 else 3
              case PopNext => 2
  {
    run', s' := run, s;
    if !s.arm.Sleeping? || s.ring != [] {
      var a := if s.arm.Sleeping? || s.arm.Suspended? then ArmTick else ArmStep;
      run', s' := Go(Moves(true), s0, run, s, a);
      run', s' := ArmRests(s0, run', s');
    }
  }

  /** With both tasks at an await a handler runs to its end. */
  lemma {:induction false} HandlerEnds(s0: State, run: seq<Action>, s: State) returns (run': seq<Action>, s': State)
    requires Exec(Moves(true), s0, run) == Some(s) && s.chassis.Parked? && s.arm.Sleeping?
    ensures Exec(Moves(true), s0, run') == Some(s') && run <= run' && s'.handler.Ready?
    ensures s'.calls == s.calls && s'.chassis == s.chassis && s'.arm == s.arm
    decreases match s.handler
              case Ready => 0
              case Refuse(_) => 1
              case InitPublish(_) => 1
              case InitStoreArgs(_) => 2
              case InitStoreRid(_) => 3
              case InitTest(_) => 4
              case PushTest(_, _) => 2
              case PushLoad(_) => 3
  {
    run', s' := run, s;
    if !s.handler.Ready? {
      run', s' := Go(Moves(true), s0, run, s, HandlerStep);
      run', s' := HandlerEnds(s0, run', s');
    }
  }

  /** From every reachable state the system, left alone and its transactions acknowledged, gets to rest, and
      then every request has had exactly as many answers as calls. */
  lemma EveryCallAnswered(run: seq<Action>) returns (run': seq<Action>, s': State)
    requires Exec(Moves(true), Start(), run).Some?
    ensures run <= run' && Exec(Moves(true), Start(), run') == Some(s') && AtRest(s')
    ensures s'.calls == Exec(Moves(true), Start(), run).value.calls
    ensures forall j: Job :: !j.Plain? ==>
              s'.calls[j] == Answered(s'.answers, j, true) + Answered(s'.answers, j, false)
  {
    var s := Exec(Moves(true), Start(), run).value;
    InvRun(Start(), run);
    run', s' := ChassisParks(Start(), run, s);
    run', s' := ArmRests(Start(), run', s');
    run', s' := HandlerEnds(Start(), run', s');
    run', s' := Go(Moves(true), Start(), run', s', ChassisTick);
    run', s' := ChassisParks(Start(), run', s');
    run', s' := ArmRests(Start(), run', s');
    forall j: Job | !j.Plain? ensures s'.calls[j] == Answered(s'.answers, j, true) + Answered(s'.answers, j, false) {
      AllAnswered(run', j);
    }
  }
}
