/** The QEMU board: the server task awaits WaitForMessage, whose poll registers a waker in a
    hand-written slot that the software-interrupt handler takes. Both look only at the REQ ring.
    Main results: the slot is initialised exactly when the flag says so and never read or dropped
    otherwise (SlotSafe), no settled REQ request is left behind by a parked task (NoLostReq), and a
    channel is safe in this way exactly when it is REQ and both sides fence (GateDecides). */
module WakeupQemu {
  import opened Basics
  import opened BusyProtocol
  import opened BusyRuns
  import opened Machine

  /** Where the task is once process_elastic has returned (core.server == Done). */
  datatype PollPc =
    | FirstCheck
    | Mask           // about to disable interrupts
    | DropOld        // from here to the two Unmask points interrupts are disabled
    | WriteWaker
    | SetFlag
    | SecondCheck
    | ClearFlag
    | DropNew
    | UnmaskReady
    | UnmaskPending
    | Parked         // poll returned Pending

  datatype IsrPc = NoIsr | CheckReq | SwapFlag | ReadSlot

  datatype State = State(
    core: Shared,
    poll: PollPc,
    hasWaker: bool,
    slotInit: bool,  // the waker slot holds a waker
    fault: bool,     // an uninitialised slot was read or dropped
    isr: IsrPc,
    woken: bool)     // the scheduler has the task marked ready

  datatype Move =
    | Core(a: Action)
    | Poll           // one atomic step of WaitForMessage::poll
    | EnterIsr(k: nat)  // MachineSoft, acknowledging k doorbells (0: it was pended locally)
    | Isr            // one atomic step of notify_from_isr
    | Resume         // the scheduler runs the woken task, which polls again
    | SpuriousPoll   // the executor polls a task that nobody woke

  function Initial(n: nat): State {
    State(Start(n), FirstCheck, false, false, false, NoIsr, false)
  }

  predicate Masked(s: State) {
    s.core.server.Done? && !s.poll.FirstCheck? && !s.poll.Mask? && !s.poll.Parked?
  }

  /** Reading or dropping the slot; a fault when it holds nothing. */
  function EmptySlot(s: State): State {
    s.(slotInit := false, fault := s.fault || !s.slotInit)
  }

  function PollStep(s: State): State
    requires !s.poll.Parked?
  {
    match s.poll
    case FirstCheck => if s.core.req != [] then Return(s) else s.(poll := Mask)
    case Mask => s.(poll := DropOld)
    case DropOld => (if s.hasWaker then EmptySlot(s) else s).(poll := WriteWaker)
    case WriteWaker => s.(slotInit := true, poll := SetFlag)
    case SetFlag => s.(hasWaker := true, poll := SecondCheck)
    case SecondCheck => s.(poll := if s.core.req != [] then ClearFlag else UnmaskPending)
    case ClearFlag => s.(hasWaker := false, poll := DropNew)
    case DropNew => EmptySlot(s).(poll := UnmaskReady)
    case UnmaskReady => Return(s)
    case UnmaskPending => s.(poll := Parked)
  }

  /** poll returned Ready: the task loops back into process_elastic. */
  function Return(s: State): State {
    s.(poll := FirstCheck, core := s.core.(server := SetBusy))
  }

  function IsrStep(s: State): State
    requires !s.isr.NoIsr?
  {
    match s.isr
    case CheckReq => s.(isr := if s.core.req != [] then SwapFlag else NoIsr)
    case SwapFlag => s.(hasWaker := false, isr := if s.hasWaker then ReadSlot else NoIsr)
    case ReadSlot => EmptySlot(s).(isr := NoIsr, woken := true)
  }

  function Next(cfg: Config, s: State, m: Move): Option<State> {
    match m
    case Core(a) =>
      if a.ServerStep? && !s.isr.NoIsr? then None  // one hart: the handler runs first
      else
        var t := Step(cfg, s.core, a);
        if t.None? then None else Some(s.(core := t.value))
    case Poll =>
      if s.core.server.Done? && s.isr.NoIsr? && !s.poll.Parked? then Some(PollStep(s)) else None
    case EnterIsr(k) =>
      if s.isr.NoIsr? && !Masked(s) && k <= s.core.doorbells
      then Some(s.(isr := CheckReq, core := s.core.(doorbells := s.core.doorbells - k))) else None
    case Isr => if s.isr.NoIsr? then None else Some(IsrStep(s))
    case Resume =>
      if s.poll.Parked? && s.isr.NoIsr? && s.woken
      then Some(s.(poll := FirstCheck, woken := false)) else None
    case SpuriousPoll =>
      if s.poll.Parked? && s.isr.NoIsr? then Some(s.(poll := FirstCheck)) else None
  }

  function Moves(cfg: Config): (State, Move) -> Option<State> {
    (s: State, m: Move) => Next(cfg, s, m)
  }

  // ---- the waker slot ----

  predicate SlotInv(s: State) {
    && !s.fault
    && (!s.core.server.Done? ==> s.poll.FirstCheck?)
    && (s.isr.NoIsr? || !Masked(s))
    && (if s.isr.ReadSlot? then !s.hasWaker && s.slotInit
        else match s.poll
          case WriteWaker => !s.slotInit
          case SetFlag => s.slotInit
          case SecondCheck => s.hasWaker && s.slotInit
          case ClearFlag => s.hasWaker && s.slotInit
          case UnmaskPending => s.hasWaker && s.slotInit
          case DropNew => !s.hasWaker && s.slotInit
          case _ => s.slotInit == s.hasWaker)
  }

  lemma SlotInvStep(cfg: Config, s: State, m: Move)
    requires SlotInv(s) && Next(cfg, s, m).Some?
    ensures SlotInv(Next(cfg, s, m).value)
  {
    match m
    case Core(a) =>
      assert s.core.server.Done? ==> Next(cfg, s, m).value.core.server.Done?;
    case _ =>
  }

  lemma {:induction false} SlotInvRun(cfg: Config, s: State, run: seq<Move>)
    requires SlotInv(s) && Exec(Moves(cfg), s, run).Some?
    ensures SlotInv(Exec(Moves(cfg), s, run).value)
    decreases |run|
  {
    if run != [] {
      SlotInvStep(cfg, s, run[0]);
      SlotInvRun(cfg, Next(cfg, s, run[0]).value, run[1..]);
    }
  }

  /** The next step of poll or of the handler reads or drops the waker in the slot. */
  predicate UsesSlot(s: State) {
    if s.isr.NoIsr? then (s.poll.DropOld? && s.hasWaker) || s.poll.DropNew? else s.isr.ReadSlot?
  }

  /** No run reads or drops an empty slot or overwrites a waker, and wherever interrupts are enabled and
      the handler is not running, has_waker says whether the slot holds a waker. Needs no fences. */
  lemma SlotSafe(cfg: Config, n: nat, run: seq<Move>)
    requires Exec(Moves(cfg), Initial(n), run).Some?
    ensures var s := Exec(Moves(cfg), Initial(n), run).value;
            && !s.fault && (UsesSlot(s) ==> s.slotInit) && (s.poll.WriteWaker? ==> !s.slotInit)
            && (s.isr.NoIsr? && !Masked(s) ==> (s.slotInit <==> s.hasWaker))
  {
    SlotInvRun(cfg, Initial(n), run);
  }

  // ---- REQ wake-ups ----

  predicate Asleep(s: State) {
    s.core.server.Done? && s.poll.Parked? && s.isr.NoIsr? && !s.woken && s.core.doorbells == 0
  }

  /** The task will test REQ again before poll can return Pending. */
  predicate WillPoll(s: State) {
    !s.core.server.Done? || !(s.poll.UnmaskPending? || s.poll.Parked?)
  }

  predicate Alert(s: State) {
    s.core.doorbells > 0 || !s.isr.NoIsr? || s.woken || WillPoll(s)
  }

  predicate Inv(s: State) {
    && CoreInv(s.core)
    && SlotInv(s)
    && (WillPoll(s) || s.hasWaker || s.woken || s.isr.ReadSlot?)
    && (Alert(s) || NoneSettled(s.core.clients, s.core.req))
  }

  lemma ClientKeepsInv(cfg: Config, s: State, a: Action)
    requires cfg.clientFence && Inv(s)
    requires !a.ServerStep? && !a.FlushServer? && Step(cfg, s.core, a).Some?
    requires CoreInv(Step(cfg, s.core, a).value)
    ensures Inv(Next(cfg, s, Core(a)).value)
  {
    assert ClientOk(a.c, s.core.clients[a.c]);
    assert forall j :: 0 <= j < |s.core.req| ==> RequestOk(s.core.clients, s.core.req[j], Req);
  }

  lemma InvStep(cfg: Config, s: State, m: Move)
    requires cfg.clientFence && cfg.serverFence
    requires Inv(s) && Next(cfg, s, m).Some?
    ensures Inv(Next(cfg, s, m).value)
  {
    SlotInvStep(cfg, s, m);
    match m
    case Core(a) =>
      CoreInvStep(cfg, s.core, a);
      match a {
        case ServerStep(counted) => ServerLooks(cfg, s.core, counted);
        case FlushServer =>
        case _ => ClientKeepsInv(cfg, s, a);
      }
    case _ =>
  }

  lemma {:induction false} InvRun(cfg: Config, s: State, run: seq<Move>)
    requires cfg.clientFence && cfg.serverFence
    requires Inv(s) && Exec(Moves(cfg), s, run).Some?
    ensures Inv(Exec(Moves(cfg), s, run).value)
    decreases |run|
  {
    if run != [] {
      InvStep(cfg, s, run[0]);
      InvRun(cfg, Next(cfg, s, run[0]).value, run[1..]);
    }
  }

  /** A parked task with no wake, handler or doorbell under way has missed no REQ request: what is
      still in REQ belongs to clients that have yet to read BUSY, which is 0. */
  lemma NoLostReq(cfg: Config, n: nat, run: seq<Move>)
    requires cfg.clientFence && cfg.serverFence
    requires Exec(Moves(cfg), Initial(n), run).Some?
    ensures var s := Exec(Moves(cfg), Initial(n), run).value;
            Asleep(s) ==> !s.core.busy && NoneSettled(s.core.clients, s.core.req)
  {
    StartInv(n);
    InvRun(cfg, Initial(n), run);
  }

  // ---- URGENT wake-ups ----

  function Inside(a: Action): Move {
    Core(a)
  }

  lemma {:induction false} LiftRun(cfg: Config, s: State, run: seq<Action>)
    requires s.isr.NoIsr? && Exec(Steps(cfg), s.core, run).Some?
    ensures Exec(Moves(cfg), s, Lift(Inside, run)) == Some(s.(core := Exec(Steps(cfg), s.core, run).value))
    decreases |run|
  {
    if run != [] {
      assert Lift(Inside, run)[1..] == Lift(Inside, run[1..]);
      LiftRun(cfg, s.(core := Step(cfg, s.core, run[0]).value), run[1..]);
    }
  }

  /** Extends a run by one step to a known state. */
  lemma Advance(cfg: Config, s0: State, run: seq<Move>, s: State, m: Move, t: State)
    returns (run': seq<Move>)
    requires Exec(Moves(cfg), s0, run) == Some(s) && Next(cfg, s, m) == Some(t)
    ensures Exec(Moves(cfg), s0, run') == Some(t)
  {
    var end;
    run', end := Go(Moves(cfg), s0, run, s, m);
  }

  /** With REQ empty, poll arms the slot and parks. */
  lemma Park(cfg: Config, s0: State, run: seq<Move>, s: State) returns (run': seq<Move>, s': State)
    requires Exec(Moves(cfg), s0, run) == Some(s)
    requires s.core.server.Done? && s.core.req == [] && s.isr.NoIsr? && s.poll.FirstCheck?
    requires !s.hasWaker
    ensures Exec(Moves(cfg), s0, run') == Some(s')
    ensures s' == s.(poll := PollPc.Parked, slotInit := true, hasWaker := true)
  {
    run' := Advance(cfg, s0, run, s, Poll, s.(poll := Mask));
    run' := Advance(cfg, s0, run', s.(poll := Mask), Poll, s.(poll := DropOld));
    run' := Advance(cfg, s0, run', s.(poll := DropOld), Poll, s.(poll := WriteWaker));
    s' := s.(slotInit := true);
    run' := Advance(cfg, s0, run', s.(poll := WriteWaker), Poll, s'.(poll := SetFlag));
    s' := s'.(hasWaker := true);
    run' := Advance(cfg, s0, run', s.(poll := SetFlag, slotInit := true), Poll, s'.(poll := SecondCheck));
    run' := Advance(cfg, s0, run', s'.(poll := SecondCheck), Poll, s'.(poll := UnmaskPending));
    run' := Advance(cfg, s0, run', s'.(poll := UnmaskPending), Poll, s'.(poll := PollPc.Parked));
    s' := s'.(poll := PollPc.Parked);
  }

  function Ring(s: State, ch: Channel): seq<Request> {
    if ch == Req then s.core.req else s.core.urgent
  }

  /** The server returns, the task parks, and then other things happen. */
  lemma ParkBetween(cfg: Config, n: nat, first: seq<Action>, c: Shared, second: seq<Action>, d: Shared)
    returns (run: seq<Move>, s: State)
    requires Exec(Steps(cfg), Start(n), first) == Some(c) && c.server.Done? && c.req == []
    requires Exec(Steps(cfg), c, second) == Some(d)
    ensures Exec(Moves(cfg), Initial(n), run) == Some(s)
    ensures s.core == d && s.poll == PollPc.Parked && s.isr == NoIsr && !s.woken
  {
    var s0 := Initial(n);
    LiftRun(cfg, s0, first);
    run, s := Park(cfg, s0, Lift(Inside, first), s0.(core := c));
    LiftRun(cfg, s, second);
    ExecAppend(Moves(cfg), s0, run, Lift(Inside, second));
    run, s := run + Lift(Inside, second), s.(core := d);
  }

  /** A client that finds BUSY clear sends an urgent request and rings. */
  lemma SendUrgent(cfg: Config, c: Shared) returns (run: seq<Action>, d: Shared)
    requires FirstIs(c, Client(Idle, 0, [])) && !c.busy && c.req == [] && c.urgent == []
    ensures Exec(Steps(cfg), c, run) == Some(d)
    ensures d == c.(clients := c.clients[0 := Client(Idle, 1, [])], urgent := [Request(0, 0, Urgent)],
                    doorbells := c.doorbells + 1, issued := c.issued + multiset{Request(0, 0, Urgent)})
  {
    run, d := FirstSend(cfg, c, [], c, Urgent, true);
    run, d := LookAtBusy(cfg, c, run, d);
    run, d := Go(Steps(cfg), c, run, d, BusyProtocol.Ring(0));
  }

  /** The server sleeps, and then the client sends an urgent request and rings. */
  lemma RungUrgent(cfg: Config, n: nat) returns (run: seq<Move>, s: State)
    requires n >= 1
    ensures Exec(Moves(cfg), Initial(n), run) == Some(s)
    ensures s.core.server.Done? && s.poll == PollPc.Parked && s.isr == NoIsr && !s.woken
    ensures s.core.doorbells == 1 && s.core.req == [] && |s.core.urgent| == 1
    ensures Settled(s.core.clients, s.core.urgent[0])
  {
    var quiet := ReachSpinning(cfg, n);
    var c;
    quiet, c := SpinOut(cfg, Start(n), quiet, Spinning(n));
    quiet, c := Doze(cfg, Start(n), quiet, c, true);
    var send, d := SendUrgent(cfg, c);
    run, s := ParkBetween(cfg, n, quiet, c, send, d);
  }

  /** An urgent request whose doorbell the handler ignored, because REQ is empty. */
  lemma UrgentMissed(cfg: Config, n: nat) returns (run: seq<Move>, s: State)
    requires n >= 1
    ensures Exec(Moves(cfg), Initial(n), run) == Some(s)
    ensures Asleep(s) && !NoneSettled(s.core.clients, s.core.urgent)
  {
    var s0 := Initial(n);
    run, s := RungUrgent(cfg, n);
    var t := s.(isr := CheckReq, core := s.core.(doorbells := 0));
    run := Advance(cfg, s0, run, s, EnterIsr(1), t);
    run := Advance(cfg, s0, run, t, Isr, t.(isr := NoIsr));
    s := t.(isr := NoIsr);
    assert Settled(s.core.clients, s.core.urgent[0]);
  }

  /** No run with n clients leaves a settled request on the channel behind a sleeping task. */
  ghost predicate ChannelSafe(cfg: Config, n: nat, ch: Channel) {
    forall run | Exec(Moves(cfg), Initial(n), run).Some? ::
      var s := Exec(Moves(cfg), Initial(n), run).value; Asleep(s) ==> NoneSettled(s.core.clients, Ring(s, ch))
  }

  /** A REQ request missed for want of a fence. */
  lemma ReqMissed(cfg: Config, n: nat) returns (run: seq<Move>, s: State)
    requires (!cfg.clientFence || !cfg.serverFence) && n >= 1
    ensures Exec(Moves(cfg), Initial(n), run) == Some(s)
    ensures Asleep(s) && !NoneSettled(s.core.clients, s.core.req)
  {
    var first, c, second, d := WithoutFence(cfg, n);
    run, s := ParkBetween(cfg, n, first, c, second, d);
    assert Settled(s.core.clients, s.core.req[0]);
  }

  /** A channel's wake-ups are safe exactly when it is REQ and both sides fence. */
  lemma GateDecides(cfg: Config, n: nat, ch: Channel)
    requires n >= 1
    ensures ChannelSafe(cfg, n, ch) <==> ch == Req && cfg.clientFence && cfg.serverFence
  {
    if ch == Urgent {
      var run, s := UrgentMissed(cfg, n);
    } else if !cfg.clientFence || !cfg.serverFence {
      var run, s := ReqMissed(cfg, n);
    } else {
      forall run | Exec(Moves(cfg), Initial(n), run).Some?
        ensures var s := Exec(Moves(cfg), Initial(n), run).value;
                Asleep(s) ==> NoneSettled(s.core.clients, Ring(s, ch))
      {
        NoLostReq(cfg, n, run);
      }
    }
  }
}
