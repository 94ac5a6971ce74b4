/** Requests answered later: chassis INIT through a one-place mailbox, arm GRAB and RELEASE through
    the eight-place command ring. The handlers run at priority 2; the chassis and arm tasks, at
    priority 1, may run between any two of a handler's loads and stores, while a handler runs only
    when both tasks are at an await.
    Main results: in every reachable state each accepted request has been answered or is in exactly
    one place on its way to be, with the arguments it came with, and each refused one has been
    answered 0xFFFFFFFF (ExactlyOnce); and that rests on the priorities (PrioritiesDecide). */
module Acall {
  import opened Basics
  import opened Machine

  const REFUSED: nat := 0xFFFF_FFFF
  const RING_CAP: nat := 8

  datatype Job =
    | Init(rid: nat, args: nat)  // args: ppr and pwm
    | Grab(rid: nat)
    | Release(rid: nat)
    | Plain                      // ARM_SET_ANGLE, ARM_TORQUE: queued, never answered

  /** A handler, at one of its loads or stores. */
  datatype Handler =
    | Ready
    | InitTest(job: Job)
    | InitStoreRid(job: Job)
    | InitStoreArgs(job: Job)
    | InitPublish(job: Job)
    | PushLoad(job: Job)
    | PushTest(job: Job, seen: nat)  // items queued when the ring's indices were loaded
    | Refuse(job: Job)

  datatype Chassis =
    | Parked             // at its await
    | TestPending
    | LoadRid            // the pending flag has been taken
    | LoadArgs(rid: nat)
    | AskInit(job: Job)    // INIT sent, waiting for its acknowledgement
    | AskConfig(job: Job)  // likewise CONFIG
    | Complete(job: Job, ok: bool)

  datatype Arm =
    | Sleeping                         // at its polling await
    | PopNext
    | Moving(job: Job, awaits: nat)    // awaits still to come in the sequence
    | Suspended(job: Job, awaits: nat) // at an await inside the sequence

  /** One call of respond. */
  datatype Answer = Answer(job: Job, result: nat)

  datatype State = State(
    handler: Handler, chassis: Chassis, arm: Arm,
    pending: bool, slotRid: nat, slotArgs: nat,
    ring: seq<Job>,
    calls: multiset<Job>, accepted: multiset<Job>, answers: seq<Answer>)  // histories

  datatype Action =
    | CallInit(rid: nat, args: nat)
    | CallArm(job: Job)
    | HandlerStep
    | ChassisTick
    | ChassisStep(ok: bool)  // ok: acknowledged, where the task waits for that
    | ArmTick
    | ArmStep

  function Start(): State {
    State(Ready, Parked, Sleeping, false, 0, 0, [], multiset{}, multiset{}, [])
  }

  function Add(m: multiset<Job>, j: Job): multiset<Job> {
    m[j := m[j] + 1]
  }

  function Respond(s: State, job: Job, result: nat): State {
    s.(answers := s.answers + [Answer(job, result)])
  }

  function HandlerNext(s: State): State
    requires !s.handler.Ready?
  {
    match s.handler
    case InitTest(j) => s.(handler := if s.pending then Refuse(j) else InitStoreRid(j))
    case InitStoreRid(j) => s.(slotRid := if j.Init? then j.rid else 0, handler := InitStoreArgs(j))
    case InitStoreArgs(j) => s.(slotArgs := if j.Init? then j.args else 0, handler := InitPublish(j))
    case InitPublish(j) => s.(pending := true, accepted := Add(s.accepted, j), handler := Ready)
    case PushLoad(j) => s.(handler := PushTest(j, |s.ring|))
    case PushTest(j, seen) =>
      if seen >= RING_CAP then s.(handler := if j.Plain? then Ready else Refuse(j))
      else s.(ring := s.ring + [j], accepted := Add(s.accepted, j), handler := Ready)
    case Refuse(j) => Respond(s, j, REFUSED).(handler := Ready)
  }

  function ChassisNext(s: State, ok: bool): State
    requires !s.chassis.Parked?
  {
    match s.chassis
    case TestPending => s.(pending := false, chassis := if s.pending then LoadRid else Parked)
    case LoadRid => s.(chassis := LoadArgs(s.slotRid))
    case LoadArgs(rid) => s.(chassis := AskInit(Init(rid, s.slotArgs)))
    case AskInit(j) => s.(chassis := if ok then AskConfig(j) else Complete(j, false))
    case AskConfig(j) => s.(chassis := Complete(j, ok))
    case Complete(j, good) => Respond(s, j, if good then 1 else 0).(chassis := Parked)
  }

  /** How often the sequence suspends: GRAB after opening, reaching and closing; RELEASE once. */
  function Awaits(j: Job): nat {
    if j.Grab? then 3 else if j.Release? then 1 else 0
  }

  function ArmNext(s: State): State
    requires !s.arm.Sleeping? && !s.arm.Suspended?
  {
    match s.arm
    case PopNext =>
      if s.ring == [] then s.(arm := Sleeping)
      else s.(ring := s.ring[1..],
              arm := if s.ring[0].Plain? then PopNext else Moving(s.ring[0], Awaits(s.ring[0])))
    case Moving(j, awaits) =>
      if awaits > 0 then s.(arm := Suspended(j, awaits)) else Respond(s, j, 0).(arm := PopNext)
  }

  /** Both priority-1 tasks are at an await. */
  predicate Idle(s: State) {
    s.chassis.Parked? && (s.arm.Sleeping? || s.arm.Suspended?)
  }

  /** strict: the scheduler keeps to the priorities. */
  function Next(strict: bool, s: State, a: Action): Option<State> {
    match a
    case CallInit(rid, args) =>
      if s.handler.Ready? && (strict ==> Idle(s))
      then Some(s.(handler := InitTest(Init(rid, args)), calls := Add(s.calls, Init(rid, args))))
      else None
    case CallArm(j) =>
      if s.handler.Ready? && !j.Init? && (strict ==> Idle(s))
      then Some(s.(handler := PushLoad(j), calls := Add(s.calls, j))) else None
    case HandlerStep =>
      if !s.handler.Ready? && (strict ==> Idle(s)) then Some(HandlerNext(s)) else None
    case ChassisTick => if s.chassis.Parked? then Some(s.(chassis := TestPending)) else None
    case ChassisStep(ok) => if s.chassis.Parked? then None else Some(ChassisNext(s, ok))
    case ArmTick =>
      (match s.arm
       case Sleeping => Some(s.(arm := PopNext))
       case Suspended(j, awaits) =>
         if awaits > 0 then Some(s.(arm := Moving(j, awaits - 1))) else None
       case _ => None)
    case ArmStep => if s.arm.Sleeping? || s.arm.Suspended? then None else Some(ArmNext(s))
  }

  function Moves(strict: bool): (State, Action) -> Option<State> {
    (s: State, a: Action) => Next(strict, s, a)
  }

  // ---- where a request can be ----

  function One(yes: bool): nat {
    if yes then 1 else 0
  }

  function Undecided(h: Handler, j: Job): nat {
    One(!h.Ready? && h.job == j)
  }

  function InMailbox(pending: bool, slot: Job, j: Job): nat {
    One(pending && j == slot)
  }

  function AtChassis(c: Chassis, slot: Job, j: Job): nat {
    One(match c
        case LoadRid => j == slot
        case LoadArgs(rid) => slot.Init? && j == Init(rid, slot.args)
        case AskInit(k) => j == k
        case AskConfig(k) => j == k
        case Complete(k, _) => j == k
        case _ => false)
  }

  function AtArm(a: Arm, j: Job): nat {
    One((a.Moving? || a.Suspended?) && a.job == j)
  }

  /** The request whose parts are in CH_INIT_RID and CH_INIT_PPR/PWM. */
  function Slot(s: State): Job {
    Init(s.slotRid, s.slotArgs)
  }

  /** Calls of respond for j, as a refusal or as a completion. */
  function Answered(answers: seq<Answer>, j: Job, refusal: bool): nat {
    if answers == [] then 0
    else
      var last := answers[|answers| - 1];
      Answered(answers[..|answers| - 1], j, refusal)
      + One(last.job == j && (last.result == REFUSED) == refusal)
  }

  /** Calls and accepted requests of one kind, balanced against the places they can be in. */
  predicate AccountedFor(s: State, j: Job) {
    && s.calls[j] == s.accepted[j] + Undecided(s.handler, j) + Answered(s.answers, j, true)
    && s.accepted[j] == InMailbox(s.pending, Slot(s), j) + multiset(s.ring)[j] + AtChassis(s.chassis, Slot(s), j)
                        + AtArm(s.arm, j) + Answered(s.answers, j, false)
  }

  ghost predicate Accounted(s: State) {
    forall j: Job :: !j.Plain? ==> AccountedFor(s, j)
  }

  predicate ControlInv(s: State) {
    && |s.ring| <= RING_CAP
    && (forall i :: 0 <= i < |s.ring| ==> !s.ring[i].Init?)
    && (match s.handler
        case PushTest(j, seen) => |s.ring| <= seen && !j.Init?
        case PushLoad(j) => !j.Init?
        case InitTest(j) => j.Init?
        case InitStoreRid(j) => j.Init? && !s.pending
        case InitStoreArgs(j) => j.Init? && !s.pending && s.slotRid == j.rid
        case InitPublish(j) => j == Init(s.slotRid, s.slotArgs) && !s.pending
        case _ => true)
    && (s.chassis.LoadRid? || s.chassis.LoadArgs? ==> !s.pending)
    && (s.chassis.AskInit? || s.chassis.AskConfig? || s.chassis.Complete? ==> s.chassis.job.Init?)
    && (s.arm.Moving? || s.arm.Suspended? ==> !s.arm.job.Init?)
    && (s.arm.Suspended? ==> s.arm.awaits > 0)
  }

  lemma AnsweredOnceMore(answers: seq<Answer>, a: Answer, j: Job, refusal: bool)
    ensures Answered(answers + [a], j, refusal)
         == Answered(answers, j, refusal) + One(a.job == j && (a.result == REFUSED) == refusal)
  {
    assert (answers + [a])[..|answers|] == answers;
  }

  lemma RefusalAccounts(s: State, j: Job)
    requires s.handler.Refuse? && AccountedFor(s, j)
    ensures AccountedFor(HandlerNext(s), j)
  {
    AnsweredOnceMore(s.answers, Answer(s.handler.job, REFUSED), j, true);
    AnsweredOnceMore(s.answers, Answer(s.handler.job, REFUSED), j, false);
  }

  lemma PushAccounts(s: State, j: Job)
    requires s.handler.PushTest? && AccountedFor(s, j) && !j.Plain?
    ensures AccountedFor(HandlerNext(s), j)
  {
    hide Answered, AtChassis, AtArm;
    assert multiset(s.ring + [s.handler.job])[j] == multiset(s.ring)[j] + One(s.handler.job == j);
  }

  lemma HandlerAccounts(s: State, j: Job)
    requires ControlInv(s) && !s.handler.Ready? && s.chassis.Parked? && AccountedFor(s, j) && !j.Plain?
    ensures AccountedFor(HandlerNext(s), j)
  {
    if s.handler.Refuse? {
      RefusalAccounts(s, j);
    } else if s.handler.PushTest? {
      PushAccounts(s, j);
    }
  }

  lemma CompletionAccounts(s: State, j: Job)
    requires s.chassis.Complete? && AccountedFor(s, j)
    ensures AccountedFor(ChassisNext(s, true), j)
  {
    var a := Answer(s.chassis.job, if s.chassis.ok then 1 else 0);
    AnsweredOnceMore(s.answers, a, j, true);
    AnsweredOnceMore(s.answers, a, j, false);
  }

  /** The chassis task goes on with the request it has. */
  lemma ChassisMoves(s: State, c: Chassis, j: Job)
    requires AccountedFor(s, j) && AtChassis(c, Slot(s), j) == AtChassis(s.chassis, Slot(s), j)
    ensures AccountedFor(s.(chassis := c), j)
  {
    hide Answered, AtChassis;
  }

  lemma ChassisAccounts(s: State, ok: bool, j: Job)
    requires !s.chassis.Parked? && AccountedFor(s, j)
    requires s.chassis.LoadRid? || s.chassis.LoadArgs? ==> !s.pending
    ensures AccountedFor(ChassisNext(s, ok), j)
  {
    hide Answered;
    if s.chassis.Complete? {
      CompletionAccounts(s, j);
      assert ChassisNext(s, ok) == ChassisNext(s, true);
    } else if !s.chassis.TestPending? {
      hide AccountedFor;
      var c := ChassisNext(s, ok).chassis;
      ChassisMoves(s, c, j);
      assert ChassisNext(s, ok) == s.(chassis := c);
    }
  }

  lemma ArmPopAccounts(s: State, j: Job)
    requires s.arm.PopNext? && AccountedFor(s, j) && !j.Plain?
    ensures AccountedFor(ArmNext(s), j)
  {
    if s.ring != [] {
      assert s.ring == [s.ring[0]] + s.ring[1..];
      assert multiset(s.ring)[j] == One(s.ring[0] == j) + multiset(s.ring[1..])[j];
    }
  }

  lemma ArmMoveAccounts(s: State, j: Job)
    requires s.arm.Moving? && AccountedFor(s, j)
    ensures AccountedFor(ArmNext(s), j)
  {
    if s.arm.awaits == 0 {
      AnsweredOnceMore(s.answers, Answer(s.arm.job, 0), j, true);
      AnsweredOnceMore(s.answers, Answer(s.arm.job, 0), j, false);
      assert ArmNext(s).handler == s.handler && ArmNext(s).chassis == s.chassis;
    }
  }

  lemma ControlHandler(s: State)
    requires ControlInv(s) && !s.handler.Ready? && s.chassis.Parked?
    ensures ControlInv(HandlerNext(s))
  {
  }

  lemma ControlTasks(s: State, ok: bool)
    requires ControlInv(s)
    ensures !s.chassis.Parked? ==> ControlInv(ChassisNext(s, ok))
    ensures !s.arm.Sleeping? && !s.arm.Suspended? ==> ControlInv(ArmNext(s))
  {
  }

  lemma ControlStep(s: State, a: Action)
    requires ControlInv(s) && Next(true, s, a).Some?
    ensures ControlInv(Next(true, s, a).value)
  {
    match a
    case HandlerStep => ControlHandler(s);
    case ChassisStep(ok) => ControlTasks(s, ok);
    case ArmStep => ControlTasks(s, true);
    case _ =>
  }

  lemma StepAccounts(s: State, a: Action, j: Job)
    requires ControlInv(s) && AccountedFor(s, j) && !j.Plain? && Next(true, s, a).Some?
    ensures AccountedFor(Next(true, s, a).value, j)
  {
    match a
    case HandlerStep => HandlerAccounts(s, j);
    case ChassisStep(ok) => ChassisAccounts(s, ok, j);
    case ArmStep =>
      if s.arm.PopNext? {
        ArmPopAccounts(s, j);
      } else {
        ArmMoveAccounts(s, j);
      }
    case _ =>
  }

  lemma AccountedStep(s: State, a: Action)
    requires ControlInv(s) && Accounted(s) && Next(true, s, a).Some?
    ensures Accounted(Next(true, s, a).value)
  {
    forall j: Job | !j.Plain? ensures AccountedFor(Next(true, s, a).value, j) {
      assert AccountedFor(s, j);
      StepAccounts(s, a, j);
    }
  }

  /** What the answers say: 0xFFFFFFFF exactly for refusals, otherwise a completion's own result. */
  predicate ResultsOk(s: State) {
    forall i :: 0 <= i < |s.answers| ==>
      s.answers[i].result == REFUSED
      || (if s.answers[i].job.Init? then s.answers[i].result <= 1 else s.answers[i].result == 0)
  }

  lemma ResultsStep(s: State, a: Action)
    requires ControlInv(s) && ResultsOk(s) && Next(true, s, a).Some?
    ensures ResultsOk(Next(true, s, a).value)
  {
    var t := Next(true, s, a).value;
    assert t.answers == s.answers || (|t.answers| == |s.answers| + 1 && t.answers[..|s.answers|] == s.answers);
  }

  lemma {:induction false} InvRun(s: State, run: seq<Action>)
    requires ControlInv(s) && Accounted(s) && ResultsOk(s) && Exec(Moves(true), s, run).Some?
    ensures var t := Exec(Moves(true), s, run).value; ControlInv(t) && Accounted(t) && ResultsOk(t)
    decreases |run|
  {
    if run != [] {
      ControlStep(s, run[0]);
      AccountedStep(s, run[0]);
      ResultsStep(s, run[0]);
      InvRun(Next(true, s, run[0]).value, run[1..]);
    }
  }

  /** Whatever the preemptions: every call is undecided, refused with one answer, or accepted, and
      every accepted request is in one place (mailbox, ring, a task) or answered, never both and
      never twice. */
  lemma ExactlyOnce(run: seq<Action>)
    requires Exec(Moves(true), Start(), run).Some?
    ensures var s := Exec(Moves(true), Start(), run).value; Accounted(s) && ResultsOk(s) && |s.ring| <= RING_CAP
  {
    InvRun(Start(), run);
  }

  /** When nothing is under way, each request has had exactly as many answers as calls. */
  lemma AllAnswered(run: seq<Action>, j: Job)
    requires Exec(Moves(true), Start(), run).Some? && !j.Plain?
    requires var s := Exec(Moves(true), Start(), run).value;
             s.handler.Ready? && s.chassis.Parked? && s.arm.Sleeping? && !s.pending && s.ring == []
    ensures var s := Exec(Moves(true), Start(), run).value;
            s.calls[j] == Answered(s.answers, j, true) + Answered(s.answers, j, false)
  {
    ExactlyOnce(run);
  }

  ghost predicate Safe(strict: bool) {
    forall run | Exec(Moves(strict), Start(), run).Some? :: Accounted(Exec(Moves(strict), Start(), run).value)
  }

  /** A handler stores a request's rid; the priorities are not looked at. */
  lemma StoreRid(run: seq<Action>, s: State, rid: nat) returns (run': seq<Action>, s': State)
    requires Exec(Moves(false), Start(), run) == Some(s) && s.handler.Ready? && !s.pending
    ensures Exec(Moves(false), Start(), run') == Some(s')
    ensures s' == s.(handler := InitStoreArgs(Init(rid, 0)), slotRid := rid, calls := Add(s.calls, Init(rid, 0)))
  {
    run', s' := Go(Moves(false), Start(), run, s, CallInit(rid, 0));
    run', s' := Go(Moves(false), Start(), run', s', HandlerStep);
    run', s' := Go(Moves(false), Start(), run', s', HandlerStep);
  }

  lemma PublishInit(run: seq<Action>, s: State) returns (run': seq<Action>, s': State)
    requires Exec(Moves(false), Start(), run) == Some(s) && s.handler.InitStoreArgs?
    requires s.handler.job == Init(s.slotRid, 0)
    ensures Exec(Moves(false), Start(), run') == Some(s')
    ensures s' == s.(handler := Ready, slotArgs := 0, pending := true, accepted := Add(s.accepted, s.handler.job))
  {
    run', s' := Go(Moves(false), Start(), run, s, HandlerStep);
    run', s' := Go(Moves(false), Start(), run', s', HandlerStep);
  }

  /** A handler let in between the chassis task's taking of the flag and its load of the rid
      overwrites the request that was taken. */
  lemma WithoutPriorities() returns (run: seq<Action>, s: State)
    ensures Exec(Moves(false), Start(), run) == Some(s) && !Accounted(s)
  {
    run, s := StoreRid([], Start(), 1);
    run, s := PublishInit(run, s);
    run, s := Go(Moves(false), Start(), run, s, ChassisTick);
    run, s := Go(Moves(false), Start(), run, s, ChassisStep(true));
    assert !s.pending && s.handler.Ready? && s.chassis.LoadRid?;
    run, s := StoreRid(run, s, 2);
    assert !AccountedFor(s, Init(1, 0));
  }

  /** Exactly-once completion needs, and needs only, that the scheduler keeps to the priorities. */
  lemma PrioritiesDecide(strict: bool)
    ensures Safe(strict) <==> strict
  {
    if strict {
      forall run | Exec(Moves(strict), Start(), run).Some? ensures Accounted(Exec(Moves(strict), Start(), run).value) {
        ExactlyOnce(run);
      }
    } else {
      var run, s := WithoutPriorities();
    }
  }
}
