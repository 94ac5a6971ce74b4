/** The bit-banged transmitter: a task that queues bytes and starts the machine, and a timer
    interrupt that moves the line once per bit. The task can be interrupted between any two of its
    loads and stores; the handler runs to completion.
    Main results: an 8N1 receiver on the line recovers exactly the accepted bytes (LineCarries), the
    frames of a burst follow one another without a gap (BackToBack), a send accepts its bytes in order and
    all of them unless the ring is full (SendAccepts), the run flag, the compare interrupt, the line and
    the mailbox mask always agree (RestIsQuiet), bit deadlines never drift (DeadlinesExact), and kick can
    find the ring empty exactly when the machine was running at the call of send (KickDecides). */
module SoftUart {
  import opened Basics
  import opened BitTiming
  import opened Machine
  import opened Wire8N1

  const RING_CAP: nat := 128

  /** Where the task is. Everything but Out is inside send. */
  datatype Task =
    | Out
    | Pushing(rest: seq<byte>)
    | RoomSeen(rest: seq<byte>)  // ring indices loaded and room found, byte not published
    | TestRunning
    | MaskMailbox
    | KickPop
    | KickLine(b: byte)
    | KickTimer
    | KickRun
    | KickEnable

  datatype Uart = Uart(
    queue: seq<byte>, running: bool, phase: nat, cur: byte, dl: u32, acc: nat,
    compareOn: bool, mailboxOn: bool, line: bool, compare: u32, task: Task,
    // histories
    accepted: seq<byte>, popped: seq<byte>, wire: seq<bool>,
    burst: nat,      // length of wire when the machine was last started
    first: nat,      // bytes sent before that
    t0: u32,         // counter when it was last started
    sampled: u32)    // counter when compare was last written

  datatype Action =
    | Call(bytes: seq<byte>)
    | TaskStep(now: u32)
    | TimerIrq(now: u32)
    | IdleBeat  // a bit time passes while the machine is stopped

  function Start(): Uart {
    Uart([], false, 0, 0, 0, 0, false, true, true, 0, Out, [], [], [], 0, 0, 0, 0)
  }

  /** The line takes a level for one bit time. */
  function Drive(s: Uart, level: bool): Uart {
    s.(line := level, wire := s.wire + [level])
  }

  function Program(s: Uart, next: (u32, nat), now: u32): Uart {
    s.(dl := next.0, acc := next.1, compare := Guarded(next.0, now), sampled := now)
  }

  function TakeByte(s: Uart): Uart
    requires s.queue != []
  {
    s.(queue := s.queue[1..], popped := s.popped + [s.queue[0]])
  }

  /** One atomic step of send or kick. */
  function TaskNext(s: Uart, now: u32): Uart
    requires !s.task.Out?
  {
    match s.task
    case Pushing(rest) =>
      s.(task := if rest != [] && |s.queue| < RING_CAP then RoomSeen(rest) else TestRunning)
    case RoomSeen(rest) =>
      if rest == [] then s.(task := TestRunning)
      else s.(queue := s.queue + [rest[0]], accepted := s.accepted + [rest[0]], task := Pushing(rest[1..]))
    case TestRunning => s.(task := if s.running then Out else MaskMailbox)
    case MaskMailbox => s.(mailboxOn := false, task := KickPop)
    case KickPop =>
      if s.queue == [] then s.(mailboxOn := true, task := Out)
      else TakeByte(s).(task := KickLine(s.queue[0]))
    case KickLine(b) =>
      var done := if s.popped == [] then 0 else |s.popped| - 1;
      Drive(s.(cur := b, phase := 0, burst := |s.wire|, first := done, task := KickTimer), false)
    case KickTimer => Program(s, StepBit(now, 0), now).(t0 := now, task := KickRun)
    case KickRun => s.(running := true, task := KickEnable)
    case KickEnable => s.(compareOn := true, task := Out)
  }

  /** The next level of the line: a data bit, the stop bit, or the next byte's start bit. */
  function NextLevel(s: Uart): Uart
    requires s.phase < 9 || s.queue != []
  {
    var phase := s.phase + 1;
    if phase <= 8 then Drive(s.(phase := phase), Bit(s.cur, phase - 1))
    else if phase == 9 then Drive(s.(phase := phase), true)
    else Drive(TakeByte(s).(cur := s.queue[0], phase := 0), false)
  }

  /** The compare interrupt's handler. */
  function OnTimerIrq(s: Uart, now: u32): Uart {
    if !s.running then s.(compareOn := false)
    else if s.phase < 9 || s.queue != [] then Beat(NextLevel(s), now)
    else s.(compareOn := false, running := false, mailboxOn := true)
  }

  function Beat(s: Uart, now: u32): Uart {
    Program(s, StepBit(s.dl, s.acc), now)
  }

  /** The start bit of a new burst is on the line but the machine does not run yet. */
  predicate Starting(s: Uart) {
    s.task.KickTimer? || s.task.KickRun? || s.task.KickEnable?
  }

  function Next(s: Uart, a: Action): Option<Uart> {
    match a
    case Call(bytes) =>
      if !s.task.Out? then None else Some(if bytes == [] then s else s.(task := Pushing(bytes)))
    case TaskStep(now) => if s.task.Out? then None else Some(TaskNext(s, now))
    case TimerIrq(now) => if s.compareOn then Some(OnTimerIrq(s, now)) else None
    case IdleBeat => if s.running || Starting(s) then None else Some(Drive(s, s.line))
  }

  // ---- control invariant ----

  predicate Kicking(t: Task) {
    t.KickPop? || t.KickLine? || t.KickTimer? || t.KickRun? || t.KickEnable?
  }

  predicate ControlInv(s: Uart) {
    && |s.queue| <= RING_CAP && s.phase <= 9
    && s.accepted == s.popped + s.queue
    && (s.task.RoomSeen? ==> |s.queue| < RING_CAP)
    && (s.compareOn ==> s.running)
    && (s.running ==> s.compareOn || s.task.KickEnable?)
    && (s.task.KickEnable? ==> s.running && !s.compareOn)
    && (s.task.MaskMailbox? || s.task.KickPop? || s.task.KickLine? || s.task.KickTimer? || s.task.KickRun?
        ==> !s.running)
    && (s.mailboxOn <==> !s.running && !Kicking(s.task))
    && (s.task.Out? && !s.running ==> s.queue == [])
  }

  lemma ControlTask(s: Uart, now: u32)
    requires ControlInv(s) && !s.task.Out?
    ensures ControlInv(TaskNext(s, now))
  {
    match s.task
    case RoomSeen(rest) =>
    case KickPop =>
    case _ =>
  }

  lemma ControlIrq(s: Uart, now: u32)
    requires ControlInv(s) && s.compareOn
    ensures ControlInv(OnTimerIrq(s, now))
  {
  }

  lemma ControlStep(s: Uart, a: Action)
    requires ControlInv(s) && Next(s, a).Some?
    ensures ControlInv(Next(s, a).value)
  {
    match a
    case TaskStep(now) => ControlTask(s, now);
    case TimerIrq(now) => ControlIrq(s, now);
    case _ =>
  }

  // ---- the line ----

  predicate OnLine(s: Uart) {
    s.running || Starting(s)
  }

  /** Bit times of the current frame already driven. */
  function Part(s: Uart): nat {
    if OnLine(s) then s.phase + 1 else 0
  }

  /** Bytes whose frames are over. */
  function Finished(s: Uart): seq<byte> {
    if (OnLine(s) || s.task.KickLine?) && s.popped != [] then s.popped[..|s.popped| - 1] else s.popped
  }

  /** The part of the line before the current frame. */
  function Before(s: Uart): seq<bool> {
    if Part(s) <= |s.wire| then s.wire[..|s.wire| - Part(s)] else []
  }

  /** The line so far: finished frames, then the first Part bits of the current byte's frame. */
  predicate LineInv(s: Uart) {
    && s.phase <= 9 && (Starting(s) ==> s.phase == 0)
    && (s.task.KickLine? || OnLine(s) ==>
          s.popped != [] && s.popped[|s.popped| - 1] == if OnLine(s) then s.cur else s.task.b)
    && Clean(Before(s)) && Receive(Before(s)).bytes == Finished(s)
    && s.wire == Before(s) + Frame(s.cur)[..Part(s)]
    && (!OnLine(s) || s.phase == 9 ==> s.line)
  }

  /** The next bit of the current frame goes onto the line. */
  lemma FrameGrows(done: seq<bool>, wire: seq<bool>, b: byte, part: nat)
    requires part < 10 && wire == done + Frame(b)[..part]
    ensures wire + [Frame(b)[part]] == done + Frame(b)[..part + 1]
    ensures (wire + [Frame(b)[part]])[..|done|] == done
  {
    FrameLevels(b, part);
  }

  lemma LineKickLine(s: Uart, now: u32)
    requires ControlInv(s) && LineInv(s) && s.task.KickLine?
    ensures LineInv(TaskNext(s, now))
  {
    var t := TaskNext(s, now);
    FrameGrows(s.wire, s.wire, s.task.b, 0);
    FrameLevels(s.task.b, 0);
    assert Before(t) == s.wire == Before(s);
  }

  lemma LineKickPop(s: Uart, now: u32)
    requires ControlInv(s) && LineInv(s) && s.task.KickPop?
    ensures LineInv(TaskNext(s, now))
  {
    var t := TaskNext(s, now);
    assert s.queue != [] ==> t.popped[..|s.popped|] == s.popped;
  }

  lemma LineTask(s: Uart, now: u32)
    requires ControlInv(s) && LineInv(s) && !s.task.Out?
    ensures LineInv(TaskNext(s, now))
  {
    hide Receive, Frame, StepBit, Guarded, Bit;
    var t := TaskNext(s, now);
    if s.task.KickLine? {
      LineKickLine(s, now);
    } else if s.task.KickPop? {
      LineKickPop(s, now);
    } else {
      assert Part(t) == Part(s) && Finished(t) == Finished(s) && t.wire == s.wire;
    }
  }

  /** The stop bit is over: the frame counts, and the next start bit may follow at once. */
  lemma FrameEnds(s: Uart)
    requires LineInv(s) && OnLine(s) && s.phase == 9
    ensures Clean(s.wire) && Receive(s.wire).bytes == s.popped
  {
    ReceiveFrame(Before(s), s.cur, 10);
  }

  lemma LineMidFrame(s: Uart, now: u32)
    requires ControlInv(s) && LineInv(s) && s.compareOn && s.phase < 9
    ensures LineInv(OnTimerIrq(s, now))
  {
    var t := OnTimerIrq(s, now);
    var level := Frame(s.cur)[s.phase + 1];
    FrameLevels(s.cur, s.phase + 1);
    FrameGrows(Before(s), s.wire, s.cur, s.phase + 1);
    assert t.wire == s.wire + [level] && t.line == level;
    assert Part(t) == Part(s) + 1 && |t.wire| - Part(t) == |Before(s)|;
    assert Before(t) == Before(s) && Finished(t) == Finished(s);
  }

  lemma LineFrameEnd(s: Uart, now: u32)
    requires ControlInv(s) && LineInv(s) && s.compareOn && s.phase == 9
    ensures LineInv(OnTimerIrq(s, now))
  {
    var t := OnTimerIrq(s, now);
    FrameEnds(s);
    if s.queue != [] {
      FrameLevels(s.queue[0], 0);
      FrameGrows(s.wire, s.wire, s.queue[0], 0);
      assert t.wire == s.wire + [false];
    }
    assert Before(t) == s.wire;
    assert Finished(t) == s.popped;
  }

  lemma LineStep(s: Uart, a: Action)
    requires ControlInv(s) && LineInv(s) && Next(s, a).Some?
    ensures LineInv(Next(s, a).value)
  {
    match a
    case TaskStep(now) => LineTask(s, now);
    case TimerIrq(now) =>
      if s.phase < 9 {
        LineMidFrame(s, now);
      } else {
        LineFrameEnd(s, now);
      }
    case IdleBeat =>
      assert Before(s) == s.wire && Before(Next(s, a).value) == s.wire + [true];
      ReceiveIdle(s.wire);
    case Call(_) =>
  }

  // ---- no idle time inside a burst ----

  /** Frames of these bytes, each starting with the bit after the last one's stop bit. */
  function Frames(bytes: seq<byte>): seq<bool> {
    if bytes == [] then [] else Frames(bytes[..|bytes| - 1]) + Frame(bytes[|bytes| - 1])
  }

  function Idle(n: nat): seq<bool> {
    seq(n, _ => true)
  }

  /** Since the machine was last started the line has carried the frames of the bytes finished since then
      without a gap, then the current frame so far, or idle levels if the machine has stopped again. */
  predicate BurstInv(s: Uart) {
    && s.phase <= 9 && s.burst <= |s.wire| && s.first <= |Finished(s)|
    && var frames := Frames(Finished(s)[s.first..]);
    if OnLine(s) then s.wire[s.burst..] == frames + Frame(s.cur)[..Part(s)]
    else s.burst + |frames| <= |s.wire| && s.wire[s.burst..] == frames + Idle(|s.wire| - s.burst - |frames|)
  }

  lemma FramesMore(bytes: seq<byte>, b: byte)
    ensures Frames(bytes + [b]) == Frames(bytes) + Frame(b)
  {
    assert (bytes + [b])[..|bytes|] == bytes;
  }

  lemma BurstStarts(s: Uart, now: u32)
    requires ControlInv(s) && LineInv(s) && s.task.KickLine?
    ensures BurstInv(TaskNext(s, now))
  {
    var t := TaskNext(s, now);
    FrameLevels(s.task.b, 0);
    assert Frame(s.task.b)[..0] == [];
    assert Finished(t)[t.first..] == [] && t.wire[t.burst..] == [false];
  }

  lemma BurstTask(s: Uart, now: u32)
    requires ControlInv(s) && LineInv(s) && BurstInv(s) && !s.task.Out?
    ensures BurstInv(TaskNext(s, now))
  {
    if s.task.KickLine? {
      BurstStarts(s, now);
    } else {
      TaskKeepsLine(s, now);
      BurstSame(s, TaskNext(s, now));
    }
  }

  lemma TaskKeepsLine(s: Uart, now: u32)
    requires ControlInv(s) && LineInv(s) && !s.task.Out? && !s.task.KickLine?
    ensures SameLine(s, TaskNext(s, now))
  {
    hide Receive, Clean, Frame;
    var t := TaskNext(s, now);
    if s.task.KickPop? && s.queue != [] {
      assert t.popped[..|s.popped|] == s.popped;
    }
  }

  predicate SameLine(s: Uart, t: Uart) {
    && t.phase == s.phase && t.cur == s.cur && OnLine(t) == OnLine(s) && Finished(t) == Finished(s)
    && t.wire == s.wire && t.burst == s.burst && t.first == s.first
  }

  lemma BurstSame(s: Uart, t: Uart)
    requires BurstInv(s) && SameLine(s, t)
    ensures BurstInv(t)
  {
    hide Frames, Frame, Idle, Finished;
    assert Part(t) == Part(s);
  }

  lemma BurstMidFrame(s: Uart, now: u32)
    requires ControlInv(s) && LineInv(s) && BurstInv(s) && s.compareOn && s.phase < 9
    ensures BurstInv(OnTimerIrq(s, now))
  {
    var t, k := OnTimerIrq(s, now), s.phase + 1;
    FrameLevels(s.cur, k);
    assert t.wire == s.wire + [Frame(s.cur)[k]] && Finished(t) == Finished(s) && Part(t) == k + 1;
    assert t.wire[t.burst..] == s.wire[s.burst..] + [Frame(s.cur)[k]];
  }

  lemma BurstFrameEnd(s: Uart, now: u32)
    requires ControlInv(s) && LineInv(s) && BurstInv(s) && s.compareOn && s.phase == 9
    ensures BurstInv(OnTimerIrq(s, now))
  {
    hide Receive, Clean, Frames;
    var t := OnTimerIrq(s, now);
    FrameDone(s);
    assert Finished(t) == s.popped;
    if s.queue != [] {
      FrameLevels(s.queue[0], 0);
      assert Frame(s.queue[0])[..1] == [false];
      assert t.wire[t.burst..] == s.wire[s.burst..] + [false];
    } else {
      assert Idle(0) == [] && t.wire[t.burst..] == s.wire[s.burst..] + Idle(0);
    }
  }

  /** At the stop bit the current byte's frame has joined the others. */
  lemma FrameDone(s: Uart)
    requires LineInv(s) && BurstInv(s) && OnLine(s) && s.phase == 9
    ensures s.first <= |s.popped| && s.wire[s.burst..] == Frames(s.popped[s.first..])
  {
    hide Receive, Clean, Frames, Frame;
    var since := Finished(s)[s.first..];
    assert s.popped == Finished(s) + [s.cur] && s.popped[s.first..] == since + [s.cur];
    FramesMore(since, s.cur);
    assert Frame(s.cur)[..10] == Frame(s.cur);
  }

  lemma BurstStep(s: Uart, a: Action)
    requires ControlInv(s) && LineInv(s) && BurstInv(s) && Next(s, a).Some?
    ensures BurstInv(Next(s, a).value)
  {
    match a
    case TaskStep(now) => BurstTask(s, now);
    case TimerIrq(now) =>
      if s.phase < 9 {
        BurstMidFrame(s, now);
      } else {
        BurstFrameEnd(s, now);
      }
    case IdleBeat => BurstIdle(s);
    case Call(_) => BurstSame(s, Next(s, a).value);
  }

  lemma BurstIdle(s: Uart)
    requires LineInv(s) && BurstInv(s) && !s.running && !Starting(s)
    ensures BurstInv(Drive(s, s.line))
  {
    hide Receive, Clean;
    var t := Drive(s, s.line);
    assert t.wire[t.burst..] == s.wire[s.burst..] + [true];
    assert Finished(t) == Finished(s);
  }

  // ---- deadlines ----

  /** The bits driven since the machine was started; each has its own deadline. */
  function Beats(s: Uart): nat {
    if |s.wire| >= s.burst then |s.wire| - s.burst else 0
  }

  /** The stored deadline is the end of the bit now on the line, counted from t0. */
  predicate TimingInv(s: Uart) {
    && (s.running || s.task.KickRun? ==>
          Beats(s) >= 1 && s.dl == IdealDeadline(s.t0, Beats(s)) && s.acc == IdealRemainder(Beats(s)))
    && (Starting(s) ==> Beats(s) == 1)
    && (s.running || s.task.KickRun? ==>
          s.compare == Guarded(s.dl, s.sampled) && 2 <= (s.compare - s.sampled) % W32 <= 0x8000_0000)
  }

  lemma TimingTask(s: Uart, now: u32)
    requires ControlInv(s) && TimingInv(s) && !s.task.Out?
    ensures TimingInv(TaskNext(s, now))
  {
    if s.task.KickTimer? {
      FirstDeadline(now);
      GuardAhead(StepBit(now, 0).0, now);
    }
  }

  lemma TimingIrq(s: Uart, now: u32)
    requires ControlInv(s) && TimingInv(s) && s.compareOn
    ensures TimingInv(OnTimerIrq(s, now))
  {
    var t := OnTimerIrq(s, now);
    if t.running {
      assert |t.wire| == |s.wire| + 1 && t.burst == s.burst;
      OneBitFurther(s.t0, Beats(s));
      GuardAhead(t.dl, now);
    }
  }

  lemma TimingStep(s: Uart, a: Action)
    requires ControlInv(s) && TimingInv(s) && Next(s, a).Some?
    ensures TimingInv(Next(s, a).value)
  {
    match a
    case TaskStep(now) => TimingTask(s, now);
    case TimerIrq(now) => TimingIrq(s, now);
    case _ =>
  }

  lemma FirstDeadline(t0: u32)
    ensures StepBit(t0, 0) == (IdealDeadline(t0, 1), IdealRemainder(1))
  {
    NoDrift(t0, 1);
  }

  // ---- main results ----

  predicate Inv(s: Uart) {
    ControlInv(s) && LineInv(s) && BurstInv(s) && TimingInv(s)
  }

  lemma {:induction false} InvRun(s: Uart, run: seq<Action>)
    requires Inv(s) && Exec(Next, s, run).Some?
    ensures Inv(Exec(Next, s, run).value)
    decreases |run|
  {
    if run != [] {
      ControlStep(s, run[0]);
      LineStep(s, run[0]);
      BurstStep(s, run[0]);
      TimingStep(s, run[0]);
      InvRun(Next(s, run[0]).value, run[1..]);
    }
  }

  lemma StartInv()
    ensures Inv(Start())
  {
    var s := Start();
    assert Finished(s) == [] && Before(s) == [] && Frame(0)[..0] == [] && Idle(0) == [];
  }

  lemma Reached(run: seq<Action>) returns (s: Uart)
    requires Exec(Next, Start(), run).Some?
    ensures s == Exec(Next, Start(), run).value && Inv(s)
  {
    hide Inv, Next;
    StartInv();
    InvRun(Start(), run);
    s := Exec(Next, Start(), run).value;
  }

  /** Whatever the interleaving of sends and interrupts, an 8N1 receiver sees no framing error and
      reads the accepted bytes in order, none lost and none repeated; the rest of them are the byte
      whose frame is under way and the queue. */
  lemma LineCarries(run: seq<Action>)
    requires Exec(Next, Start(), run).Some?
    ensures var s := Exec(Next, Start(), run).value;
            var r := Receive(s.wire);
            && r.ok && r.bytes <= s.accepted
            && |s.accepted| <= |r.bytes| + 1 + |s.queue|
            && (OnLine(s) && s.phase < 9 ==> |r.bytes| < |s.accepted|)
            && r.pending == (if OnLine(s) && s.phase < 9 then Frame(s.accepted[|r.bytes|])[..s.phase + 1]
                             else [])
  {
    hide BurstInv, TimingInv;
    var s := Reached(run);
    if OnLine(s) {
      ReceiveFrame(Before(s), s.cur, Part(s));
      assert s.popped == s.popped[..|s.popped| - 1] + [s.cur];
    } else {
      assert Frame(s.cur)[..0] == [];
      assert s.wire == Before(s);
    }
  }

  /** The waveform of a burst has no gaps: since the machine was last started, the frames of the bytes
      received since then stand one behind the other, and behind them the frame under way, or, once the
      machine has stopped, only idle levels. */
  lemma BackToBack(run: seq<Action>)
    requires Exec(Next, Start(), run).Some?
    ensures var s := Exec(Next, Start(), run).value;
            var r := Receive(s.wire);
            && s.burst <= |s.wire| && s.first <= |r.bytes|
            && var frames := Frames(r.bytes[s.first..]);
            if OnLine(s) then s.wire[s.burst..] == frames + r.pending
            else s.burst + |frames| <= |s.wire| && s.wire[s.burst..] == frames + Idle(|s.wire| - s.burst - |frames|)
  {
    hide TimingInv, Receive, Clean;
    var s := Reached(run);
    if OnLine(s) {
      ReceiveFrame(Before(s), s.cur, Part(s));
      if s.phase == 9 {
        FrameDone(s);
        FrameEnds(s);
      }
    } else {
      assert Frame(s.cur)[..0] == [];
      assert s.wire == Before(s);
    }
  }

  /** Outside send: stopped means nothing queued, compare interrupt off, line high, mailbox interrupt
      on, and everything accepted already received; running means the opposite masks. */
  lemma RestIsQuiet(run: seq<Action>)
    requires Exec(Next, Start(), run).Some? && Exec(Next, Start(), run).value.task.Out?
    ensures var s := Exec(Next, Start(), run).value;
            if s.running then s.compareOn && !s.mailboxOn
            else s.queue == [] && !s.compareOn && s.mailboxOn && s.line
                 && Receive(s.wire) == Reception(s.accepted, [], true)
  {
    var s := Reached(run);
    LineCarries(run);
    if !s.running {
      assert Frame(s.cur)[..0] == [];
      assert s.wire == Before(s);
    }
  }

  /** The deadline stored with the n-th bit of a burst is its exact end, however late any interrupt
      was taken; the compare value written with it is 2 to 2^31 ticks ahead of the counter. */
  lemma DeadlinesExact(run: seq<Action>)
    requires Exec(Next, Start(), run).Some? && Exec(Next, Start(), run).value.running
    ensures var s := Exec(Next, Start(), run).value;
            && s.dl == IdealDeadline(s.t0, Beats(s)) && s.acc == IdealRemainder(Beats(s))
            && 2 <= (s.compare - s.sampled) % W32 <= 0x8000_0000
  {
    hide BurstInv, LineInv;
    var s := Reached(run);
  }

  /** kick and the handler never take from the ring at the same time: while kick is about to pop,
      the compare interrupt is off. */
  lemma ConsumersExclusive(run: seq<Action>)
    requires Exec(Next, Start(), run).Some? && Exec(Next, Start(), run).value.task.KickPop?
    ensures var s := Exec(Next, Start(), run).value; !s.running && !s.compareOn
  {
    var s := Reached(run);
  }

  // ---- what a send accepts ----

  predicate NoCall(run: seq<Action>) {
    forall i :: 0 <= i < |run| ==> !run[i].Call?
  }

  predicate AtPush(t: Task) {
    t.Pushing? || t.RoomSeen?
  }

  /** In this run the task, with a byte still to push, loads the ring's indices and finds it full. */
  predicate FindsFull(s: Uart, run: seq<Action>)
    requires Exec(Next, s, run).Some?
    decreases |run|
  {
    run != []
    && (|| (run[0].TaskStep? && s.task.Pushing? && s.task.rest != [] && |s.queue| >= 128)
        || FindsFull(Next(s, run[0]).value, run[1..]))
  }

  /** Past its pushes a send accepts nothing. */
  lemma {:induction false} PastPushing(s: Uart, run: seq<Action>)
    requires NoCall(run) && Exec(Next, s, run).Some? && !AtPush(s.task)
    ensures var t := Exec(Next, s, run).value; t.accepted == s.accepted && !AtPush(t.task) && !FindsFull(s, run)
    decreases |run|
  {
    hide Next;
    if run != [] {
      PastStep(s, run[0]);
      PastPushing(Next(s, run[0]).value, run[1..]);
    }
  }

  lemma PastStep(s: Uart, a: Action)
    requires !AtPush(s.task) && !a.Call? && Next(s, a).Some?
    ensures var t := Next(s, a).value; t.accepted == s.accepted && !AtPush(t.task)
  {
    hide StepBit, Guarded, Bit;
    match a
    case TaskStep(now) =>
      match s.task {
        case TestRunning =>
        case MaskMailbox =>
        case KickPop =>
        case KickLine(_) =>
        case KickTimer =>
        case KickRun =>
        case KickEnable =>
      }
    case TimerIrq(now) => TimerAcceptsNothing(s, now);
    case IdleBeat =>
  }

  lemma TimerAcceptsNothing(s: Uart, now: u32)
    ensures var t := OnTimerIrq(s, now); t.accepted == s.accepted && t.task == s.task
  {
    hide StepBit, Guarded, Bit;
  }

  /** A step of a send that pushes: a byte more, or the same bytes still to push, or an end. */
  lemma PushStep(s: Uart, a: Action)
    requires AtPush(s.task) && !a.Call? && Next(s, a).Some?
    ensures var t := Next(s, a).value;
            var full := a.TaskStep? && s.task.Pushing? && s.task.rest != [] && |s.queue| >= 128;
            if !AtPush(t.task) then t.accepted == s.accepted && (full <==> s.task.rest != [])
            else !full && (|| (t.accepted == s.accepted && t.task.rest == s.task.rest)
                           || (s.task.rest != [] && t.accepted == s.accepted + [s.task.rest[0]]
                               && t.task.rest == s.task.rest[1..]))
  {
  }

  /** Of the bytes rest a prefix was accepted; task is what the send is at then. */
  predicate Pushed(was: seq<byte>, rest: seq<byte>, now': seq<byte>, task: Task, full: bool) {
    && |was| <= |now'| <= |was| + |rest| && now' == was + rest[..|now'| - |was|]
    && if AtPush(task) then task.rest == rest[|now'| - |was|..] && !full
       else |now'| - |was| < |rest| <==> full
  }

  lemma PushedMore(was: seq<byte>, rest: seq<byte>, now': seq<byte>, task: Task, full: bool)
    requires rest != [] && Pushed(was + [rest[0]], rest[1..], now', task, full)
    ensures Pushed(was, rest, now', task, full)
  {
    var n := |now'| - |was| - 1;
    assert [rest[0]] + rest[1..][..n] == rest[..n + 1] && rest[1..][n..] == rest[n + 1..];
    assert was + [rest[0]] + rest[1..][..n] == was + ([rest[0]] + rest[1..][..n]);
  }

  lemma NonePushed(was: seq<byte>, rest: seq<byte>, task: Task, full: bool)
    requires if AtPush(task) then task.rest == rest && !full else full <==> rest != []
    ensures Pushed(was, rest, was, task, full)
  {
    assert rest[0..] == rest && was + rest[..0] == was;
  }

  lemma {:induction false} PushRun(s: Uart, run: seq<Action>)
    requires NoCall(run) && Exec(Next, s, run).Some? && AtPush(s.task)
    ensures var t := Exec(Next, s, run).value;
            Pushed(s.accepted, s.task.rest, t.accepted, t.task, FindsFull(s, run))
    decreases |run|
  {
    hide Next, Pushed;
    if run == [] {
      NonePushed(s.accepted, s.task.rest, s.task, false);
    } else {
      var t, end := Next(s, run[0]).value, Exec(Next, s, run).value;
      PushStep(s, run[0]);
      if AtPush(t.task) {
        PushRun(t, run[1..]);
        if t.accepted != s.accepted {
          PushedMore(s.accepted, s.task.rest, end.accepted, end.task, FindsFull(s, run));
        }
      } else {
        PastPushing(t, run[1..]);
        NonePushed(s.accepted, s.task.rest, end.task, FindsFull(s, run));
      }
    }
  }

  /** Since its call a send has accepted a prefix of its bytes, in order; once it is past its pushes, all of
      them exactly unless a load of the ring's indices found 128 bytes in it. */
  lemma SendAccepts(s: Uart, bytes: seq<byte>, run: seq<Action>)
    requires s.task.Out? && NoCall(run) && Exec(Next, s, [Call(bytes)] + run).Some?
    ensures var t := Exec(Next, s, [Call(bytes)] + run).value;
            var n := |t.accepted| - |s.accepted|;
            && 0 <= n <= |bytes| && t.accepted == s.accepted + bytes[..n]
            && (!AtPush(t.task) ==> (n < |bytes| <==> FindsFull(s, [Call(bytes)] + run)))
  {
    hide Next;
    var called := Next(s, Call(bytes)).value;
    assert ([Call(bytes)] + run)[1..] == run;
    assert called == (if bytes == [] then s else s.(task := Pushing(bytes))) by {
      CallResult(s, bytes);
    }
    assert FindsFull(s, [Call(bytes)] + run) <==> FindsFull(called, run);
    if bytes == [] {
      PastPushing(s, run);
    } else {
      PushRun(called, run);
    }
  }

  lemma CallResult(s: Uart, bytes: seq<byte>)
    requires s.task.Out?
    ensures Next(s, Call(bytes)) == Some(if bytes == [] then s else s.(task := Pushing(bytes)))
  {
  }

  // ---- kick on an empty ring ----

  /** The send of these bytes gets to kick with the ring empty. */
  predicate FindsNothing(s: Uart, bytes: seq<byte>, run: seq<Action>) {
    && bytes != [] && NoCall(run)
    && var t := Exec(Next, s, [Call(bytes)] + run);
    t.Some? && t.value.task.KickPop? && t.value.queue == []
  }

  /** From the call on, while the machine does not run: something is queued or about to be. */
  predicate WillPop(s: Uart) {
    match s.task
    case Pushing(rest) => !s.running && (rest != [] || s.queue != [])
    case RoomSeen(rest) => !s.running && rest != []
    case TestRunning => !s.running && s.queue != []
    case MaskMailbox => s.queue != []
    case KickPop => s.queue != []
    case _ => true
  }

  lemma WillPopStep(s: Uart, a: Action)
    requires ControlInv(s) && WillPop(s) && !a.Call? && Next(s, a).Some?
    ensures WillPop(Next(s, a).value)
  {
    match a
    case TaskStep(now) =>
      match s.task {
        case RoomSeen(_) =>
        case _ =>
      }
    case TimerIrq(now) =>
    case IdleBeat =>
  }

  lemma {:induction false} WillPopRun(s: Uart, run: seq<Action>)
    requires ControlInv(s) && WillPop(s) && NoCall(run) && Exec(Next, s, run).Some?
    ensures WillPop(Exec(Next, s, run).value)
    decreases |run|
  {
    if run != [] {
      ControlStep(s, run[0]);
      WillPopStep(s, run[0]);
      WillPopRun(Next(s, run[0]).value, run[1..]);
    }
  }

  /** A send that starts on a stopped machine finds its byte. */
  lemma StoppedFinds(s: Uart, bytes: seq<byte>, run: seq<Action>)
    requires ControlInv(s) && s.task.Out? && !s.running
    ensures !FindsNothing(s, bytes, run)
  {
    if FindsNothing(s, bytes, run) {
      var called := s.(task := Pushing(bytes));
      assert Next(s, Call(bytes)) == Some(called);
      assert ([Call(bytes)] + run)[1..] == run;
      ControlStep(s, Call(bytes));
      WillPopRun(called, run);
    }
  }

  /** The task pushes its byte, or finds the ring full, and is about to test RUNNING. */
  lemma PushOne(s0: Uart, run: seq<Action>, s: Uart) returns (run': seq<Action>, s': Uart)
    requires Exec(Next, s0, run) == Some(s) && s.task == Pushing([0]) && run != [] && NoCall(run[1..])
    ensures Exec(Next, s0, run') == Some(s') && run' != [] && run'[0] == run[0] && NoCall(run'[1..])
    ensures s'.task.TestRunning? && s'.running == s.running
  {
    run', s' := Go(Next, s0, run, s, TaskStep(0));
    if s'.task.RoomSeen? {
      run', s' := Go(Next, s0, run', s', TaskStep(0));
      assert [0 as byte][1..] == [];
      run', s' := Go(Next, s0, run', s', TaskStep(0));
    }
  }

  /** The handler sends all that is queued and stops, while the task waits to test RUNNING. */
  lemma {:induction false} DrainRing(s0: Uart, run: seq<Action>, s: Uart) returns (run': seq<Action>, s': Uart)
    requires Exec(Next, s0, run) == Some(s) && run != [] && NoCall(run[1..])
    requires ControlInv(s) && s.task.TestRunning? && s.running
    ensures Exec(Next, s0, run') == Some(s') && run' != [] && run'[0] == run[0] && NoCall(run'[1..])
    ensures s'.task.TestRunning? && !s'.running && s'.queue == []
    decreases 10 * |s.queue| + 9 - s.phase
  {
    ControlStep(s, TimerIrq(0));
    run', s' := Go(Next, s0, run, s, TimerIrq(0));
    if s'.running {
      run', s' := DrainRing(s0, run', s');
    }
  }

  /** A send that starts on a running machine can find nothing: the handler may empty the ring before the
      task tests RUNNING. */
  lemma RunningMisses(s: Uart) returns (run: seq<Action>)
    requires ControlInv(s) && s.task.Out? && s.running
    ensures FindsNothing(s, [0], run)
  {
    var call, t := Go(Next, s, [], s, Call([0]));
    ControlStep(s, Call([0]));
    call, t := PushOne(s, call, t);
    ExecControl(s, call);
    call, t := DrainRing(s, call, t);
    call, t := Go(Next, s, call, t, TaskStep(0));
    call, t := Go(Next, s, call, t, TaskStep(0));
    run := call[1..];
    assert call == [Call([0])] + run;
  }

  lemma {:induction false} ExecControl(s: Uart, run: seq<Action>)
    requires ControlInv(s) && Exec(Next, s, run).Some?
    ensures ControlInv(Exec(Next, s, run).value)
    decreases |run|
  {
    if run != [] {
      ControlStep(s, run[0]);
      ExecControl(Next(s, run[0]).value, run[1..]);
    }
  }

  /** In any state in which send may be called: kick can find the ring empty in that send exactly when the
      machine is running at the call. */
  lemma KickDecides(before: seq<Action>)
    requires Exec(Next, Start(), before).Some? && Exec(Next, Start(), before).value.task.Out?
    ensures var s := Exec(Next, Start(), before).value;
            (exists bytes, run :: FindsNothing(s, bytes, run)) <==> s.running
  {
    var s := Reached(before);
    if s.running {
      var run := RunningMisses(s);
    } else {
      forall bytes, run ensures !FindsNothing(s, bytes, run) {
        StoppedFinds(s, bytes, run);
      }
    }
  }

  /** It does happen: the second of two sends can find nothing. */
  lemma KickFindsNothing() returns (before: seq<Action>, s: Uart, run: seq<Action>)
    ensures Exec(Next, Start(), before) == Some(s) && FindsNothing(s, [0], run)
  {
    before, s := Go(Next, Start(), [], Start(), Call([1]));
    before, s := Go(Next, Start(), before, s, TaskStep(0));
    before, s := Go(Next, Start(), before, s, TaskStep(0));
    before, s := Go(Next, Start(), before, s, TaskStep(0));
    assert s.task.TestRunning? && !s.running && |s.queue| == 1;
    before, s := KickThroughRun(before, s);
    s := Reached(before);
    run := RunningMisses(s);
  }

  lemma KickThroughRun(run: seq<Action>, s: Uart) returns (run': seq<Action>, s': Uart)
    requires Exec(Next, Start(), run) == Some(s) && s.task.TestRunning? && !s.running && |s.queue| == 1
    ensures Exec(Next, Start(), run') == Some(s') && s'.task.Out? && s'.running
  {
    run', s' := Go(Next, Start(), run, s, TaskStep(0));
    run', s' := Go(Next, Start(), run', s', TaskStep(0));
    run', s' := Go(Next, Start(), run', s', TaskStep(0));
    assert s'.task.KickLine?;
    run', s' := Go(Next, Start(), run', s', TaskStep(0));
    assert s'.task.KickTimer?;
    run', s' := Go(Next, Start(), run', s', TaskStep(0));
    run', s' := Go(Next, Start(), run', s', TaskStep(0));
    assert s'.task.KickEnable? && s'.running;
    run', s' := Go(Next, Start(), run', s', TaskStep(0));
  }

  // ---- the driver's own code ----

  /** kick from its first step to its last. */
  function KickThrough(s: Uart, now: u32): Uart
    requires Kicking(s.task)
    decreases match s.task case KickPop => 5 case KickLine(_) => 4 case KickTimer => 3 case KickRun => 2 case _ => 1
  {
    var t := TaskNext(s, now);
    if t.task.Out? then t else KickThrough(t, now)
  }

  lemma KickResult(s: Uart, now: u32)
    requires s.task.KickPop?
    ensures KickThrough(s, now)
         == if s.queue == [] then s.(mailboxOn := true, task := Out)
            else
              var loaded := TakeByte(s).(cur := s.queue[0], phase := 0, burst := |s.wire|, first := |s.popped|);
              Program(Drive(loaded, false), StepBit(now, 0), now)
                .(t0 := now, running := true, compareOn := true, task := Out)
  {
    if s.queue != [] {
      var line := TaskNext(s, now);
      var timer := TaskNext(line, now);
      var run := TaskNext(timer, now);
      var enable := TaskNext(run, now);
      assert KickThrough(enable, now) == TaskNext(enable, now);
      assert KickThrough(run, now) == KickThrough(enable, now);
      assert KickThrough(timer, now) == KickThrough(run, now);
      assert KickThrough(line, now) == KickThrough(timer, now);
    }
  }

  /** The driver's static state and the registers it writes. The histories are ghost. */
  class Driver {
    var ring: seq<byte>
    var running: bool
    var phase: nat
    var cur: byte
    var dl: u32
    var acc: nat
    var ier: bool
    var mailboxIrq: bool
    var line: bool
    var match0: u32
    ghost var past: Uart  // only its histories are used

    ghost function View(task: Task): Uart
      reads this
    {
      past.(queue := ring, running := running, phase := phase, cur := cur, dl := dl, acc := acc,
            compareOn := ier, mailboxOn := mailboxIrq, line := line, compare := match0, task := task)
    }

    /** set_line, lasting one bit time. */
    method SetLine(high: bool, ghost task: Task)
      modifies this`line, this`past
      ensures View(task) == Drive(old(View(task)), high)
    {
      line := high;
      past := past.(wire := past.wire + [high]);
    }

    method LoadByte(ghost task: Task)
      requires ring != []
      modifies this`ring, this`cur, this`phase, this`past
      ensures View(task) == TakeByte(old(View(task))).(cur := old(ring)[0], phase := 0)
    {
      cur, past := ring[0], past.(popped := past.popped + [ring[0]]);
      ring := ring[1..];
      phase := 0;
    }

    method WriteMatchGuarded(deadline: u32, now: u32)
      modifies this`match0
      ensures match0 == Guarded(deadline, now)
    {
      var d := deadline;
      var ahead := (d - now) % W32;
      if ahead < 2 || ahead > 0x8000_0000 {
        d := (now + 2) % W32;
      }
      match0 := d;
    }

    method ScheduleBit(next: (u32, nat), now: u32, ghost task: Task)
      modifies this`dl, this`acc, this`match0, this`past
      ensures View(task) == Program(old(View(task)), next, now)
    {
      dl, acc := next.0, next.1;
      past := past.(sampled := now);
      WriteMatchGuarded(dl, now);
    }

    method Kick(now: u32)
      requires !running
      modifies this
      ensures View(Out) == KickThrough(old(View(KickPop)), now)
    {
      KickResult(View(KickPop), now);
      if ring == [] {
        mailboxIrq := true;
        return;
      }
      LoadByte(Out);
      past := past.(burst := |past.wire|, first := |past.popped| - 1);
      SetLine(false, Out);
      ScheduleBit(StepBit(now, 0), now, Out);
      past := past.(t0 := now);
      running := true;
      ier := true;
    }

    method TimerInterrupt(now: u32, ghost task: Task)
      modifies this
      ensures View(task) == OnTimerIrq(old(View(task)), now)
    {
      if !running {
        ier := false;
        return;
      }
      if phase + 1 > 9 && ring == [] {
        ier, running, mailboxIrq := false, false, true;
        return;
      }
      AdvanceLine(task);
      ScheduleBit(StepBit(dl, acc), now, task);
    }

    method AdvanceLine(ghost task: Task)
      requires phase < 9 || ring != []
      modifies this`ring, this`cur, this`phase, this`line, this`past
      ensures View(task) == NextLevel(old(View(task)))
    {
      var next := phase + 1;
      if next <= 8 {
        phase := next;
        SetLine(Bit(cur, next - 1), task);
      } else if next == 9 {
        phase := next;
        SetLine(true, task);
      } else {
        LoadByte(task);
        SetLine(false, task);
      }
    }
  }
}
