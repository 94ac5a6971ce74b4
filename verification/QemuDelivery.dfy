/** The QEMU board left to itself: with the clients silent, and apart from polls and interrupts that nobody
    asked for, the system comes to rest after boundedly many moves (SilenceEnds), and then every REQ request
    sent has been received once (RestMeansDelivered); an urgent one may still lie in its ring. */
module QemuDelivery {
  import opened Basics
  import opened BusyOrder
  import opened BusyProgress
  import opened BusyProtocol
  import opened Machine
  import opened WakeupQemu

  /** Moves that need no client program and no accident: store buffers, interrupts for doorbells, their
      handler, the woken task. */
  predicate Unprompted(m: Move) {
    match m
    case Core(a) => a.FlushClient? || a.FlushServer? || a.ServerStep?
    case EnterIsr(k) => k > 0
    case SpuriousPoll => false
    case _ => true
  }

  /** What the handler has still to do. */
  function HandlerWork(pc: IsrPc): nat {
    match pc
    case NoIsr => 0
    case CheckReq => 4
    case SwapFlag => 3
    case ReadSlot => 2
  }

  /** What is still to be processed: messages, doorbells, the handler, a wake-up. */
  function Work(s: State): nat {
    2 * Buffered(s.core.clients) + |s.core.req| + |s.core.urgent|
    + 5 * s.core.doorbells + HandlerWork(s.isr) + (if s.woken then 1 else 0)
  }

  /** Steps from here to a message taken, given that REQ holds one, or to parking. */
  function WithReq(s: State): nat {
    match s.core.server
    case SetBusy => 3
    case DrainUrgent(_) => 2
    case DrainReq(_) => 1
    case SpinReq(_) => 9
    case SpinUrgent(_) => 10
    case ClearBusy => 8
    case FenceStep => 7
    case RecheckReq => 6
    case RecheckUrgent => 5
    case FinalUrgent => 2
    case FinalReq => 1
    case Done =>
      match s.poll
      case FirstCheck => 4
      case Mask => 11
      case DropOld => 10
      case WriteWaker => 9
      case SetFlag => 8
      case SecondCheck => 7
      case ClearFlag => 6
      case DropNew => 5
      case UnmaskReady => 4
      case UnmaskPending => 1
      case Parked => 0
  }

  /** Steps from here to parking if REQ stays empty. */
  function WithoutReq(cfg: Config, s: State): nat {
    var spin := 2 * cfg.spinLimit;
    if !s.core.server.Done? then 8 + Distance(cfg, s.core)
    else match s.poll
      case FirstCheck => 7
      case Mask => 6
      case DropOld => 5
      case WriteWaker => 4
      case SetFlag => 3
      case SecondCheck => 2
      case ClearFlag => 25 + spin
      case DropNew => 24 + spin
      case UnmaskReady => 23 + spin
      case UnmaskPending => 1
      case Parked => 0
  }

  function Left(cfg: Config, s: State): (d: nat)
    ensures d <= 25 + 2 * cfg.spinLimit
  {
    DistanceBounded(cfg, s.core);
    if s.core.req != [] then WithReq(s) else WithoutReq(cfg, s)
  }

  /** Bounds the number of unprompted moves. */
  function Budget(cfg: Config, s: State): nat {
    Work(s) * (51 + 4 * cfg.spinLimit) + 2 * Left(cfg, s) + |s.core.serverBuffer|
  }

  lemma WorkDown(cfg: Config, s: State, t: State)
    requires Work(t) < Work(s) && |t.core.serverBuffer| == |s.core.serverBuffer|
    ensures Budget(cfg, t) < Budget(cfg, s)
  {
    Outweighs(Work(s), Work(t), 51 + 4 * cfg.spinLimit, 2 * Left(cfg, t));
  }

  lemma LeftDown(cfg: Config, s: State, t: State)
    requires Work(t) == Work(s) && Left(cfg, t) < Left(cfg, s)
    requires |t.core.serverBuffer| <= |s.core.serverBuffer| + 1
    ensures Budget(cfg, t) < Budget(cfg, s)
  {
  }

  lemma PollDown(cfg: Config, s: State)
    requires s.core.server.Done? && !s.poll.Parked?
    ensures Left(cfg, PollStep(s)) < Left(cfg, s) && Work(PollStep(s)) == Work(s)
    ensures PollStep(s).core.serverBuffer == s.core.serverBuffer
  {
    hide Buffered, Distance;
    PollSame(s);
    if s.poll.UnmaskReady? || (s.poll.FirstCheck? && s.core.req != []) {
      ReturnDown(cfg, s);
    } else {
      StepDown(cfg, s);
    }
  }

  lemma PollSame(s: State)
    requires !s.poll.Parked?
    ensures var t := PollStep(s); t.core == s.core.(server := t.core.server) && t.isr == s.isr && t.woken == s.woken
  {
  }

  lemma StepDown(cfg: Config, s: State)
    requires s.core.server.Done? && !s.poll.Parked?
    requires !s.poll.UnmaskReady? && !(s.poll.FirstCheck? && s.core.req != [])
    ensures Left(cfg, PollStep(s)) < Left(cfg, s)
  {
    hide Buffered, Distance;
  }

  lemma ReturnDown(cfg: Config, s: State)
    requires s.core.server.Done? && (s.poll.UnmaskReady? || (s.poll.FirstCheck? && s.core.req != []))
    ensures Left(cfg, Return(s)) < Left(cfg, s)
  {
  }

  lemma ServerDown(cfg: Config, s: State, counted: bool)
    requires SlotInv(s) && Server(cfg, s.core, counted).Some?
    ensures var t := s.(core := Server(cfg, s.core, counted).value); Budget(cfg, t) < Budget(cfg, s)
  {
    var t := s.(core := Server(cfg, s.core, counted).value);
    ServerDescends(cfg, s.core, counted);
    if |t.core.req| + |t.core.urgent| < |s.core.req| + |s.core.urgent| {
      WorkDown(cfg, s, t);
    } else {
      assert Left(cfg, t) < Left(cfg, s);
      LeftDown(cfg, s, t);
    }
  }

  lemma FlushDown(cfg: Config, s: State)
    requires s.core.serverBuffer != []
    ensures var c := s.core.(busy := s.core.serverBuffer[0], serverBuffer := s.core.serverBuffer[1..]);
            Budget(cfg, s.(core := c)) < Budget(cfg, s)
  {
    var c := s.core.(busy := s.core.serverBuffer[0], serverBuffer := s.core.serverBuffer[1..]);
    assert Left(cfg, s.(core := c)) == Left(cfg, s);
  }

  lemma BudgetDown(cfg: Config, s: State, m: Move)
    requires SlotInv(s) && Unprompted(m) && Next(cfg, s, m).Some?
    ensures Budget(cfg, Next(cfg, s, m).value) < Budget(cfg, s)
  {
    hide Left, PollStep, Server;
    var t := Next(cfg, s, m).value;
    match m
    case Core(ServerStep(counted)) => ServerDown(cfg, s, counted);
    case Core(FlushClient(c)) =>
      BufferedUpdate(s.core.clients, c, t.core.clients[c]);
      WorkDown(cfg, s, t);
    case Core(FlushServer) => FlushDown(cfg, s);
    case Poll =>
      PollDown(cfg, s);
      LeftDown(cfg, s, t);
    case EnterIsr(_) => WorkDown(cfg, s, t);
    case Isr => WorkDown(cfg, s, t);
    case Resume => WorkDown(cfg, s, t);
  }

  /** While the clients are silent the system makes at most Budget more moves of its own. */
  lemma {:induction false} SilenceEnds(cfg: Config, s: State, run: seq<Move>)
    requires SlotInv(s) && Exec(Moves(cfg), s, run).Some?
    requires forall i :: 0 <= i < |run| ==> Unprompted(run[i])
    ensures |run| + Budget(cfg, Exec(Moves(cfg), s, run).value) <= Budget(cfg, s)
    decreases |run|
  {
    if run != [] {
      BudgetDown(cfg, s, run[0]);
      SlotInvStep(cfg, s, run[0]);
      SilenceEnds(cfg, Next(cfg, s, run[0]).value, run[1..]);
    }
  }

  ghost predicate AtRest(cfg: Config, s: State) {
    forall m | Unprompted(m) :: Next(cfg, s, m).None?
  }

  /** The system rests only when it sleeps. */
  lemma RestIsSleep(cfg: Config, s: State)
    requires AtRest(cfg, s)
    ensures Asleep(s) && forall i :: 0 <= i < |s.core.clients| ==> s.core.clients[i].buffer == []
  {
    assert Next(cfg, s, Isr).None?;
    assert Next(cfg, s, Core(FlushServer)).None?;
    assert Next(cfg, s, Core(ServerStep(true))).None?;
    assert Next(cfg, s, Poll).None?;
    assert Next(cfg, s, Resume).None?;
    assert s.core.doorbells > 0 ==> Next(cfg, s, EnterIsr(s.core.doorbells)).None?;
    forall i | 0 <= i < |s.core.clients| ensures s.core.clients[i].buffer == [] {
      assert Next(cfg, s, Core(FlushClient(i))).None?;
    }
  }

  lemma MoveConserves(cfg: Config, s: State, m: Move)
    requires Conserved(s.core) && IssuedOnce(s.core) && Next(cfg, s, m).Some?
    ensures var t := Next(cfg, s, m).value; Conserved(t.core) && IssuedOnce(t.core)
  {
    var t := Next(cfg, s, m).value;
    hide Step, PollStep, IsrStep, Copies, InBuffers;
    if m.Core? {
      ConservedStep(cfg, s.core, m.a);
      IssuedOnceStep(cfg, s.core, m.a);
    } else {
      OtherMove(cfg, s, m);
      SameCopies(s.core, t.core);
    }
  }

  lemma OtherMove(cfg: Config, s: State, m: Move)
    requires !m.Core? && Next(cfg, s, m).Some?
    ensures SameRequests(s.core, Next(cfg, s, m).value.core)
  {
    hide Step;
    if m.Poll? {
      PollSame(s);
    }
  }

  predicate SameRequests(c: Shared, d: Shared) {
    && d.taken == c.taken && d.issued == c.issued && d.req == c.req && d.urgent == c.urgent
    && d.clients == c.clients
  }

  lemma SameCopies(c: Shared, d: Shared)
    requires Conserved(c) && IssuedOnce(c) && SameRequests(c, d)
    ensures Conserved(d) && IssuedOnce(d)
  {
    assert forall r :: Copies(d, r) == Copies(c, r);
  }

  lemma {:induction false} ConservedRun(cfg: Config, s: State, run: seq<Move>)
    requires Conserved(s.core) && IssuedOnce(s.core) && Exec(Moves(cfg), s, run).Some?
    ensures var t := Exec(Moves(cfg), s, run).value; Conserved(t.core) && IssuedOnce(t.core)
    decreases |run|
  {
    if run != [] {
      MoveConserves(cfg, s, run[0]);
      ConservedRun(cfg, Next(cfg, s, run[0]).value, run[1..]);
    }
  }

  lemma {:induction false} OrderRun(cfg: Config, s: State, run: seq<Move>)
    requires cfg.clientFence && cfg.serverFence
    requires Inv(s) && OrderInv(s.core) && Exec(Moves(cfg), s, run).Some?
    ensures OrderInv(Exec(Moves(cfg), s, run).value.core)
    decreases |run|
  {
    if run != [] {
      var t := Next(cfg, s, run[0]).value;
      InvStep(cfg, s, run[0]);
      if run[0].Core? {
        OrderStep(cfg, s.core, run[0].a);
      } else {
        OtherMove(cfg, s, run[0]);
        OrderKept(s.core, t.core);
      }
      OrderRun(cfg, t, run[1..]);
    }
  }

  /** In every run, of two requests that a client sent on one channel the earlier one is received first. */
  lemma SentOrder(cfg: Config, n: nat, run: seq<Move>, ch: Channel)
    requires cfg.clientFence && cfg.serverFence && Exec(Moves(cfg), Initial(n), run).Some?
    ensures Ascending(Of(Exec(Moves(cfg), Initial(n), run).value.core.taken, ch))
  {
    StartInv(n);
    OrderRun(cfg, Initial(n), run);
    ReceivedInOrder(Exec(Moves(cfg), Initial(n), run).value.core, ch);
  }

  /** Once every client has finished its calls and the system has come to rest, REQ is empty and the server
      has received every REQ request ever sent, once; an urgent request has been received or lies in its
      ring. */
  lemma RestMeansDelivered(cfg: Config, n: nat, run: seq<Move>)
    requires cfg.clientFence && cfg.serverFence
    requires Exec(Moves(cfg), Initial(n), run).Some?
    requires var s := Exec(Moves(cfg), Initial(n), run).value;
             AtRest(cfg, s) && forall i :: 0 <= i < |s.core.clients| ==> s.core.clients[i].pc == Idle
    ensures var s := Exec(Moves(cfg), Initial(n), run).value;
            && s.core.req == []
            && (forall r: Request :: r.channel == Req ==> multiset(s.core.taken)[r] == s.core.issued[r] <= 1)
            && (forall r: Request :: multiset(s.core.taken)[r] + multiset(s.core.urgent)[r] == s.core.issued[r] <= 1)
  {
    var s := Exec(Moves(cfg), Initial(n), run).value;
    StartInv(n);
    InvRun(cfg, Initial(n), run);
    RestIsSleep(cfg, s);
    StartConserved(n);
    ConservedRun(cfg, Initial(n), run);
    assert s.core.req != [] ==> Settled(s.core.clients, s.core.req[0]);
    forall r: Request
      ensures multiset(s.core.taken)[r] + multiset(s.core.urgent)[r] == s.core.issued[r] <= 1
      ensures r.channel == Req ==> multiset(s.core.urgent)[r] == 0
    {
      InBuffersEmpty(s.core.clients, r);
      assert s.core.issued[r] == Copies(s.core, r);
      assert forall j :: 0 <= j < |s.core.urgent| ==> RequestOk(s.core.clients, s.core.urgent[j], Urgent);
      assert r in s.core.urgent ==> r.channel == Urgent;
    }
  }
}
