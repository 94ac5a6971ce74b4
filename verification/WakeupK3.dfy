/** The K3 board: the server task awaits the mailbox latch, which the mailbox interrupt sets.
    Main results: a settled request is never left behind by a parked server (NoLostWakeup), that
    holds exactly when both fences are there (FencesDecide), and once the clients stop, the server
    takes everything they sent (SilenceEnds, RestMeansDelivered). */
module WakeupK3 {
  import opened Basics
  import opened BusyOrder
  import opened BusyProgress
  import opened BusyProtocol
  import opened BusyRuns
  import opened Machine

  /** core.server == Done: the task is suspended in MBX3.recv(). */
  datatype State = State(core: Shared, latch: bool)

  datatype Move =
    | Core(a: Action)
    | Deliver(k: nat)  // the mailbox interrupt empties its FIFO of k doorbells and sets the latch
    | Wake             // recv() consumes the latch and the task calls process_elastic again

  function Initial(n: nat): State {
    State(Start(n), false)
  }

  function Next(cfg: Config, s: State, m: Move): Option<State> {
    match m
    case Core(a) =>
      var t := Step(cfg, s.core, a);
      if t.None? then None else Some(s.(core := t.value))
    case Deliver(k) =>
      if 0 < k <= s.core.doorbells
      then Some(State(s.core.(doorbells := s.core.doorbells - k), true)) else None
    case Wake =>
      if s.core.server.Done? && s.latch then Some(State(s.core.(server := SetBusy), false)) else None
  }

  function Moves(cfg: Config): (State, Move) -> Option<State> {
    (s: State, m: Move) => Next(cfg, s, m)
  }

  // ---- safety ----

  predicate Asleep(s: State) {
    s.core.server.Done? && !s.latch && s.core.doorbells == 0
  }

  /** Nothing a finished client sent is waiting in memory, and BUSY reads 0 for the others. */
  predicate NothingMissed(s: State) {
    && !s.core.busy
    && NoneSettled(s.core.clients, s.core.req)
    && NoneSettled(s.core.clients, s.core.urgent)
  }

  /** A wake-up is under way, or the server will look at the channel before it sleeps. */
  predicate Alert(s: State, ch: Channel) {
    s.core.doorbells > 0 || s.latch || WillLook(s.core.server, ch)
  }

  predicate Covered(s: State) {
    && (Alert(s, Req) || NoneSettled(s.core.clients, s.core.req))
    && (Alert(s, Urgent) || NoneSettled(s.core.clients, s.core.urgent))
  }

  predicate Inv(s: State) {
    CoreInv(s.core) && Covered(s)
  }

  lemma ClientKeepsCovered(cfg: Config, s: State, a: Action)
    requires cfg.clientFence && Inv(s)
    requires !a.ServerStep? && !a.FlushServer? && Step(cfg, s.core, a).Some?
    ensures Covered(Next(cfg, s, Core(a)).value)
  {
    assert ClientOk(a.c, s.core.clients[a.c]);
    assert forall j :: 0 <= j < |s.core.req| ==> RequestOk(s.core.clients, s.core.req[j], Req);
    assert forall j :: 0 <= j < |s.core.urgent| ==> RequestOk(s.core.clients, s.core.urgent[j], Urgent);
  }

  lemma ServerKeepsCovered(cfg: Config, s: State, counted: bool)
    requires Covered(s) && Server(cfg, s.core, counted).Some?
    ensures Covered(Next(cfg, s, Core(ServerStep(counted))).value)
  {
    ServerLooks(cfg, s.core, counted);
  }

  lemma InvStep(cfg: Config, s: State, m: Move)
    requires cfg.clientFence && cfg.serverFence
    requires Inv(s) && Next(cfg, s, m).Some?
    ensures Inv(Next(cfg, s, m).value)
  {
    match m
    case Core(a) =>
      CoreInvStep(cfg, s.core, a);
      match a {
        case ServerStep(counted) => ServerKeepsCovered(cfg, s, counted);
        case FlushServer =>
        case _ => ClientKeepsCovered(cfg, s, a);
      }
    case Deliver(_) =>
    case Wake =>
  }

  lemma {:induction false} InvRun(cfg: Config, s: State, run: seq<Move>)
    requires cfg.clientFence && cfg.serverFence
    requires Inv(s) && Exec(Moves(cfg), s, run).Some?
    ensures Inv(Exec(Moves(cfg), s, run).value)
    decreases |run|
  {
    if run != [] {
      InvStep(cfg, s, run[0]);
      InvRun(cfg, Next(cfg, s, run[0]).value, run[1..]);
    }
  }

  /** In every state any run reaches: a server asleep with no doorbell on its way has missed
      nothing. Requests still in memory belong to clients that have yet to read BUSY, which is 0. */
  lemma NoLostWakeup(cfg: Config, n: nat, run: seq<Move>)
    requires cfg.clientFence && cfg.serverFence
    requires Exec(Moves(cfg), Initial(n), run).Some?
    ensures var s := Exec(Moves(cfg), Initial(n), run).value; Asleep(s) ==> NothingMissed(s)
  {
    StartInv(n);
    InvRun(cfg, Initial(n), run);
  }

  // ---- both fences are needed ----

  function Inside(a: Action): Move {
    Core(a)
  }

  lemma {:induction false} LiftRun(cfg: Config, s: State, run: seq<Action>)
    requires Exec(Steps(cfg), s.core, run).Some?
    ensures Exec(Moves(cfg), s, Lift(Inside, run)) == Some(s.(core := Exec(Steps(cfg), s.core, run).value))
    decreases |run|
  {
    if run != [] {
      assert Lift(Inside, run)[1..] == Lift(Inside, run[1..]);
      LiftRun(cfg, s.(core := Step(cfg, s.core, run[0]).value), run[1..]);
    }
  }

  /** No run with n clients loses a wake-up. */
  ghost predicate WakeupSafe(cfg: Config, n: nat) {
    forall run | Exec(Moves(cfg), Initial(n), run).Some? ::
      var s := Exec(Moves(cfg), Initial(n), run).value; Asleep(s) ==> NothingMissed(s)
  }

  /** Wake-ups are safe exactly when both sides fence, whatever the length of the elastic window
      and however many clients. */
  lemma FencesDecide(cfg: Config, n: nat)
    requires n >= 1
    ensures WakeupSafe(cfg, n) <==> cfg.clientFence && cfg.serverFence
  {
    if cfg.clientFence && cfg.serverFence {
      forall run | Exec(Moves(cfg), Initial(n), run).Some?
        ensures var s := Exec(Moves(cfg), Initial(n), run).value; Asleep(s) ==> NothingMissed(s)
      {
        NoLostWakeup(cfg, n, run);
      }
    } else {
      var first, returned, second, s := WithoutFence(cfg, n);
      ExecAppend(Steps(cfg), Start(n), first, second);
      LiftRun(cfg, Initial(n), first + second);
      assert Settled(s.clients, s.req[0]);
    }
  }

  // ---- delivery ----

  /** Moves that need no client program: store buffers, the interrupt and the server task. */
  predicate Unprompted(m: Move) {
    m.Core? ==> m.a.FlushClient? || m.a.FlushServer? || m.a == ServerStep(true)
  }

  /** What is still to be processed: messages, doorbells, the latch. */
  function Work(s: State): nat {
    2 * Buffered(s.core.clients) + |s.core.req| + |s.core.urgent|
    + 2 * s.core.doorbells + (if s.latch then 1 else 0)
  }

  /** Bounds the number of unprompted moves. */
  function Budget(cfg: Config, s: State): nat {
    Work(s) * (29 + 4 * cfg.spinLimit) + 2 * Distance(cfg, s.core) + |s.core.serverBuffer|
  }

  lemma WorkDown(cfg: Config, s: State, t: State)
    requires Work(t) < Work(s) && |t.core.serverBuffer| == |s.core.serverBuffer|
    ensures Budget(cfg, t) < Budget(cfg, s)
  {
    DistanceBounded(cfg, t.core);
    Outweighs(Work(s), Work(t), 29 + 4 * cfg.spinLimit, 2 * Distance(cfg, t.core));
  }

  lemma BudgetDown(cfg: Config, s: State, m: Move)
    requires Unprompted(m) && Next(cfg, s, m).Some?
    ensures Budget(cfg, Next(cfg, s, m).value) < Budget(cfg, s)
  {
    var t := Next(cfg, s, m).value;
    match m
    case Core(ServerStep(_)) =>
      ServerDescends(cfg, s.core, true);
      if Work(t) < Work(s) {
        WorkDown(cfg, s, t);
      }
    case Core(FlushClient(c)) =>
      BufferedUpdate(s.core.clients, c, t.core.clients[c]);
      WorkDown(cfg, s, t);
    case Core(FlushServer) =>
    case Deliver(_) => WorkDown(cfg, s, t);
    case Wake => WorkDown(cfg, s, t);
  }

  /** While the clients are silent the system runs for at most Budget more moves. */
  lemma {:induction false} SilenceEnds(cfg: Config, s: State, run: seq<Move>)
    requires Exec(Moves(cfg), s, run).Some? && forall i :: 0 <= i < |run| ==> Unprompted(run[i])
    ensures |run| + Budget(cfg, Exec(Moves(cfg), s, run).value) <= Budget(cfg, s)
    decreases |run|
  {
    if run != [] {
      BudgetDown(cfg, s, run[0]);
      SilenceEnds(cfg, Next(cfg, s, run[0]).value, run[1..]);
    }
  }

  ghost predicate AtRest(cfg: Config, s: State) {
    forall m | Unprompted(m) :: Next(cfg, s, m).None?
  }

  lemma RestIsSleep(cfg: Config, s: State)
    requires AtRest(cfg, s)
    ensures Asleep(s) && forall i :: 0 <= i < |s.core.clients| ==> s.core.clients[i].buffer == []
  {
    assert Next(cfg, s, Core(FlushServer)).None?;
    assert Next(cfg, s, Core(ServerStep(true))).None?;
    assert Next(cfg, s, Wake).None?;
    assert Next(cfg, s, Deliver(s.core.doorbells)).None?;
    forall i | 0 <= i < |s.core.clients| ensures s.core.clients[i].buffer == [] {
      assert Next(cfg, s, Core(FlushClient(i))).None?;
    }
  }

  lemma {:induction false} ConservedRun(cfg: Config, s: State, run: seq<Move>)
    requires Conserved(s.core) && IssuedOnce(s.core) && Exec(Moves(cfg), s, run).Some?
    ensures var t := Exec(Moves(cfg), s, run).value; Conserved(t.core) && IssuedOnce(t.core)
    decreases |run|
  {
    if run != [] {
      var t := Next(cfg, s, run[0]).value;
      match run[0] {
        case Core(a) =>
          ConservedStep(cfg, s.core, a);
          IssuedOnceStep(cfg, s.core, a);
        case _ =>
          assert forall r :: Copies(t.core, r) == Copies(s.core, r);
      }
      ConservedRun(cfg, t, run[1..]);
    }
  }

  lemma {:induction false} OrderRun(cfg: Config, s: State, run: seq<Move>)
    requires cfg.clientFence && cfg.serverFence
    requires Inv(s) && OrderInv(s.core) && Exec(Moves(cfg), s, run).Some?
    ensures OrderInv(Exec(Moves(cfg), s, run).value.core)
    decreases |run|
  {
    if run != [] {
      var t := Next(cfg, s, run[0]).value;
      InvStep(cfg, s, run[0]);
      if run[0].Core? {
        OrderStep(cfg, s.core, run[0].a);
      } else {
        OrderKept(s.core, t.core);
      }
      OrderRun(cfg, t, run[1..]);
    }
  }

  /** In every run, of two requests that a client sent on one channel the earlier one is received first. */
  lemma SentOrder(cfg: Config, n: nat, run: seq<Move>, ch: Channel)
    requires cfg.clientFence && cfg.serverFence && Exec(Moves(cfg), Initial(n), run).Some?
    ensures Ascending(Of(Exec(Moves(cfg), Initial(n), run).value.core.taken, ch))
  {
    StartInv(n);
    OrderRun(cfg, Initial(n), run);
    ReceivedInOrder(Exec(Moves(cfg), Initial(n), run).value.core, ch);
  }

  /** Once every client has finished its calls and the system has come to rest, the server has
      received every request ever sent, once. With SilenceEnds: rest comes after boundedly many moves. */
  lemma RestMeansDelivered(cfg: Config, n: nat, run: seq<Move>)
    requires cfg.clientFence && cfg.serverFence
    requires Exec(Moves(cfg), Initial(n), run).Some?
    requires var s := Exec(Moves(cfg), Initial(n), run).value;
             AtRest(cfg, s) && forall i :: 0 <= i < |s.core.clients| ==> s.core.clients[i].pc == Idle
    ensures var s := Exec(Moves(cfg), Initial(n), run).value;
            && s.core.req == [] && s.core.urgent == []
            && forall r :: multiset(s.core.taken)[r] == s.core.issued[r] <= 1
  {
    var s := Exec(Moves(cfg), Initial(n), run).value;
    NoLostWakeup(cfg, n, run);
    RestIsSleep(cfg, s);
    StartConserved(n);
    ConservedRun(cfg, Initial(n), run);
    assert s.core.req != [] ==> Settled(s.core.clients, s.core.req[0]);
    assert s.core.urgent != [] ==> Settled(s.core.clients, s.core.urgent[0]);
    forall r ensures multiset(s.core.taken)[r] == s.core.issued[r] <= 1 {
      InBuffersEmpty(s.core.clients, r);
      assert s.core.issued[r] == Copies(s.core, r);
    }
  }
}
