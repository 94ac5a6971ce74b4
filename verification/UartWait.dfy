/** Waiting for a byte: the receive interrupt pushes bytes into the ring and takes the waker, and poll pops
    a byte, or registers a waker and pops once more with interrupts disabled. Unlike WaitForMessage, poll
    consumes what it waits for, the handler is the producer, and it wakes without looking.
    Main results: the waker slot is never used while empty (SlotSafe), a parked task with no wake or handler
    under way has received every byte that found room, once and in order (NoLostByte), a byte finds no room
    only when 255 are queued (DroppedOnlyWhenFull), and a byte that finds room is received, whatever the
    task was doing (ByteReceived). */
module UartWait {
  import opened Basics
  import opened Machine

  const USABLE: nat := 255

  datatype PollPc =
    | Working        // the task uses the byte it has and will poll again
    | FirstPop
    | Mask           // about to disable interrupts
    | DropOld        // from here to the two Unmask points interrupts are disabled
    | WriteWaker
    | SetFlag
    | SecondPop
    | ClearFlag(b: byte)
    | DropNew(b: byte)
    | UnmaskReady(b: byte)
    | UnmaskPending
    | Parked         // poll returned Pending

  /** The handler pushes any number of bytes and then notifies. */
  datatype IsrPc = NoIsr | Pushing | SwapFlag | ReadSlot

  datatype State = State(
    queue: seq<byte>,
    poll: PollPc,
    hasWaker: bool,
    slotInit: bool,  // the waker slot holds a waker
    fault: bool,     // an uninitialised slot was read or dropped
    isr: IsrPc,
    woken: bool,     // the scheduler has the task marked ready
    // histories
    accepted: seq<byte>, taken: seq<byte>, dropped: nat)

  datatype Move =
    | Again          // the task polls for the next byte
    | Poll           // one atomic step of WaitForByte::poll
    | EnterIsr
    | Push(b: byte)  // push_byte
    | Notify         // the handler has pushed its bytes
    | Isr            // one atomic step of notify_from_isr
    | Resume         // the scheduler runs the woken task, which polls again
    | SpuriousPoll   // the executor polls a task that nobody woke

  function Initial(): State {
    State([], FirstPop, false, false, false, NoIsr, false, [], [], 0)
  }

  predicate Masked(s: State) {
    match s.poll
    case Working | FirstPop | Mask | Parked => false
    case _ => true
  }

  /** Reading or dropping the slot; a fault when it holds nothing. */
  function EmptySlot(s: State): State {
    s.(slotInit := false, fault := s.fault || !s.slotInit)
  }

  function PollStep(s: State): State
    requires !s.poll.Parked? && !s.poll.Working?
  {
    match s.poll
    case FirstPop =>
      if s.queue == [] then s.(poll := Mask)
      else s.(queue := s.queue[1..], taken := s.taken + [s.queue[0]], poll := Working)
    case Mask => s.(poll := DropOld)
    case DropOld => (if s.hasWaker then EmptySlot(s) else s).(poll := WriteWaker)
    case WriteWaker => s.(slotInit := true, poll := SetFlag)
    case SetFlag => s.(hasWaker := true, poll := SecondPop)
    case SecondPop =>
      if s.queue == [] then s.(poll := UnmaskPending)
      else s.(queue := s.queue[1..], poll := ClearFlag(s.queue[0]))
    case ClearFlag(b) => s.(hasWaker := false, poll := DropNew(b))
    case DropNew(b) => EmptySlot(s).(poll := UnmaskReady(b))
    case UnmaskReady(b) => s.(taken := s.taken + [b], poll := Working)
    case UnmaskPending => s.(poll := Parked)
  }

  function Next(s: State, m: Move): Option<State> {
    match m
    case Again => if s.poll.Working? && s.isr.NoIsr? then Some(s.(poll := FirstPop)) else None
    case Poll =>
      if s.isr.NoIsr? && !s.poll.Parked? && !s.poll.Working? then Some(PollStep(s)) else None
    case EnterIsr => if s.isr.NoIsr? && !Masked(s) then Some(s.(isr := Pushing)) else None
    case Push(b) =>
      if !s.isr.Pushing? then None
      else if |s.queue| >= USABLE then Some(s.(dropped := s.dropped + 1))
      else Some(s.(queue := s.queue + [b], accepted := s.accepted + [b]))
    case Notify => if s.isr.Pushing? then Some(s.(isr := SwapFlag)) else None
    case Isr =>
      (match s.isr
       case SwapFlag => Some(s.(hasWaker := false, isr := if s.hasWaker then ReadSlot else NoIsr))
       case ReadSlot => Some(EmptySlot(s).(isr := NoIsr, woken := true))
       case _ => None)
    case Resume =>
      if s.poll.Parked? && s.isr.NoIsr? && s.woken then Some(s.(poll := FirstPop, woken := false)) else None
    case SpuriousPoll => if s.poll.Parked? && s.isr.NoIsr? then Some(s.(poll := FirstPop)) else None
  }

  // ---- what every step keeps ----

  predicate SlotInv(s: State) {
    && !s.fault && (s.isr.NoIsr? || !Masked(s))
    && (if s.isr.ReadSlot? then !s.hasWaker && s.slotInit
        else match s.poll
          case WriteWaker => !s.slotInit
          case SetFlag => s.slotInit
          case SecondPop | ClearFlag(_) | UnmaskPending => s.hasWaker && s.slotInit
          case DropNew(_) => !s.hasWaker && s.slotInit
          case _ => s.slotInit == s.hasWaker)
  }

  /** The byte popped with interrupts disabled, on its way to the task. */
  function InHand(s: State): seq<byte> {
    match s.poll
    case ClearFlag(b) => [b]
    case DropNew(b) => [b]
    case UnmaskReady(b) => [b]
    case _ => []
  }

  function Delivered(s: State): seq<byte> {
    s.taken + InHand(s)
  }

  predicate InOrder(s: State) {
    |s.queue| <= USABLE && s.accepted == Delivered(s) + s.queue
  }

  predicate WillPop(s: State) {
    !s.poll.UnmaskPending? && !s.poll.Parked?
  }

  predicate WakeInv(s: State) {
    && (WillPop(s) || s.hasWaker || s.woken || s.isr.ReadSlot?)
    && (WillPop(s) || !s.isr.NoIsr? || s.woken || s.queue == [])
  }

  predicate Inv(s: State) {
    SlotInv(s) && InOrder(s) && WakeInv(s)
  }

  /** One byte goes from the ring to the task. */
  lemma PopKeepsOrder(s: State, t: State)
    requires InOrder(s) && s.queue != [] && t.accepted == s.accepted && t.queue == s.queue[1..]
    requires Delivered(t) == Delivered(s) + [s.queue[0]]
    ensures InOrder(t)
  {
    assert Delivered(s) + s.queue == Delivered(s) + [s.queue[0]] + s.queue[1..];
  }

  lemma PollPops(s: State)
    requires (s.poll.FirstPop? || s.poll.SecondPop?) && s.queue != []
    ensures Delivered(PollStep(s)) == Delivered(s) + [s.queue[0]]
  {
  }

  lemma PollDelivers(s: State)
    requires !s.poll.Parked? && !s.poll.Working?
    requires s.queue == [] || !(s.poll.FirstPop? || s.poll.SecondPop?)
    ensures Delivered(PollStep(s)) == Delivered(s) && PollStep(s).queue == s.queue
    ensures PollStep(s).accepted == s.accepted
  {
  }

  lemma OrderPoll(s: State)
    requires InOrder(s) && !s.poll.Parked? && !s.poll.Working?
    ensures InOrder(PollStep(s))
  {
    if (s.poll.FirstPop? || s.poll.SecondPop?) && s.queue != [] {
      PollPops(s);
      PopKeepsOrder(s, PollStep(s));
    } else {
      PollDelivers(s);
    }
  }

  lemma OrderStep(s: State, m: Move)
    requires InOrder(s) && Next(s, m).Some?
    ensures InOrder(Next(s, m).value)
  {
    var t := Next(s, m).value;
    if m.Poll? {
      OrderPoll(s);
    } else if m.Push? && |s.queue| < USABLE {
      assert Delivered(s) + (s.queue + [m.b]) == Delivered(s) + s.queue + [m.b];
    } else {
      assert t.queue == s.queue && t.taken == s.taken && t.accepted == s.accepted && InHand(t) == InHand(s);
    }
  }

  lemma InvStep(s: State, m: Move)
    requires Inv(s) && Next(s, m).Some?
    ensures Inv(Next(s, m).value)
  {
    OrderStep(s, m);
  }

  lemma {:induction false} InvRun(s: State, run: seq<Move>)
    requires Inv(s) && Exec(Next, s, run).Some?
    ensures Inv(Exec(Next, s, run).value)
    decreases |run|
  {
    if run != [] {
      InvStep(s, run[0]);
      InvRun(Next(s, run[0]).value, run[1..]);
    }
  }

  // ---- main results ----

  /** The next step of poll or of the handler reads or drops the waker in the slot. */
  predicate UsesSlot(s: State) {
    if s.isr.NoIsr? then (s.poll.DropOld? && s.hasWaker) || s.poll.DropNew? else s.isr.ReadSlot?
  }

  /** No run reads or drops an empty slot or overwrites a waker, and wherever interrupts are enabled and
      the handler is not running, has_waker says whether the slot holds a waker. */
  lemma SlotSafe(run: seq<Move>)
    requires Exec(Next, Initial(), run).Some?
    ensures var s := Exec(Next, Initial(), run).value;
            && !s.fault && (UsesSlot(s) ==> s.slotInit) && (s.poll.WriteWaker? ==> !s.slotInit)
            && (s.isr.NoIsr? && !Masked(s) ==> (s.slotInit <==> s.hasWaker))
  {
    InvRun(Initial(), run);
  }

  /** The bytes that found room have been received or are queued, in order; and when the task is parked
      with no handler and no wake under way, all have been received. */
  lemma NoLostByte(run: seq<Move>)
    requires Exec(Next, Initial(), run).Some?
    ensures var s := Exec(Next, Initial(), run).value;
            && s.accepted == s.taken + InHand(s) + s.queue
            && (s.poll.Parked? && s.isr.NoIsr? && !s.woken ==> s.queue == [] && s.taken == s.accepted)
  {
    InvRun(Initial(), run);
  }

  /** The handler refuses a byte exactly when 255 are queued, and otherwise accepts it. */
  lemma DroppedOnlyWhenFull(run: seq<Move>, b: byte)
    requires Exec(Next, Initial(), run).Some? && Exec(Next, Initial(), run).value.isr.Pushing?
    ensures var s := Exec(Next, Initial(), run).value;
            var t := Next(s, Push(b)).value;
            && |s.accepted| <= |s.taken| + USABLE
            && t.dropped - s.dropped == (if |s.accepted| == |s.taken| + 255 then 1 else 0)
            && t.accepted == if t.dropped > s.dropped then s.accepted else s.accepted + [b]
  {
    InvRun(Initial(), run);
  }

  // ---- every byte is received ----

  /** What the task, the scheduler and a handler that has begun do of themselves. */
  predicate Own(m: Move) {
    m.Again? || m.Poll? || m.Notify? || m.Isr? || m.Resume?
  }

  /** The run, and behind it moves of the system's own. */
  predicate GoesOn(run: seq<Move>, run': seq<Move>) {
    run <= run' && forall i :: |run| <= i < |run'| ==> Own(run'[i])
  }

  predicate Quiet(s: State) {
    s.isr.NoIsr? && s.queue == [] && InHand(s) == []
  }

  /** What the system does next. */
  function OwnMove(s: State): Move {
    if s.isr.Pushing? then Notify
    else if !s.isr.NoIsr? then Isr
    else if s.poll.Working? then Again
    else if s.poll.Parked? then Resume
    else Poll
  }

  /** Steps of poll to its next pop that finds a byte. */
  function ToPop(p: PollPc): nat {
    match p
    case ClearFlag(_) => 6
    case DropNew(_) => 5
    case Mask | UnmaskReady(_) => 4
    case DropOld | UnmaskPending => 3
    case Working | WriteWaker | Parked => 2
    case SetFlag => 1
    case FirstPop | SecondPop => 0
  }

  function ToEnd(i: IsrPc): nat {
    match i
    case Pushing => 3
    case SwapFlag => 2
    case ReadSlot => 1
    case NoIsr => 0
  }

  lemma OwnStep(s: State)
    requires Inv(s) && !Quiet(s)
    ensures Next(s, OwnMove(s)).Some?
    ensures var t := Next(s, OwnMove(s)).value;
            && t.accepted == s.accepted
            && (ToEnd(t.isr) < ToEnd(s.isr)
                || (t.isr == s.isr && (|t.queue| < |s.queue|
                                       || (t.queue == s.queue && ToPop(t.poll) < ToPop(s.poll)))))
  {
  }

  lemma {:induction false} Drains(s0: State, run: seq<Move>, s: State) returns (run': seq<Move>, s': State)
    requires Exec(Next, s0, run) == Some(s) && Inv(s)
    ensures Exec(Next, s0, run') == Some(s') && GoesOn(run, run')
    ensures Quiet(s') && s'.taken == s'.accepted == s.accepted
    decreases ToEnd(s.isr), |s.queue|, ToPop(s.poll)
  {
    hide Next;
    run', s' := run, s;
    if Quiet(s) {
      assert s.taken + [] + [] == s.taken;
    } else {
      OwnStep(s);
      InvStep(s, OwnMove(s));
      run', s' := Go(Next, s0, run, s, OwnMove(s));
      run', s' := Drains(s0, run', s');
    }
  }

  /** Wherever poll has not disabled interrupts, parked or not, a byte may come; and if there is room for
      it, the task then receives it behind all earlier ones without being polled for nothing. */
  lemma ByteReceived(run: seq<Move>, b: byte) returns (run': seq<Move>, s': State)
    requires Exec(Next, Initial(), run).Some?
    requires var s := Exec(Next, Initial(), run).value;
             && s.isr.NoIsr? && (s.poll.Working? || s.poll.FirstPop? || s.poll.Mask? || s.poll.Parked?)
             && |s.accepted| < |s.taken| + 255
    ensures Exec(Next, Initial(), run') == Some(s') && GoesOn(run + [EnterIsr, Push(b)], run')
    ensures s'.taken == Exec(Next, Initial(), run).value.accepted + [b] && Quiet(s')
  {
    var s := Exec(Next, Initial(), run).value;
    InvRun(Initial(), run);
    run', s' := Go(Next, Initial(), run, s, EnterIsr);
    run', s' := Go(Next, Initial(), run', s', Push(b));
    assert run + [EnterIsr] + [Push(b)] == run + [EnterIsr, Push(b)];
    InvRun(Initial(), run');
    run', s' := Drains(Initial(), run', s');
  }
}
