/** The RPC client's response buffer: eight entries filled from CH1 by poll_responses and emptied by
    recv (in order) and recv_for (by rid, moving the last entry into the hole); recv_raw_for only looks.
    Main results: over any run every delivered response is consumed once or still buffered, and at most
    eight are buffered (Accounting); without recv_for they are consumed in order of arrival (Fifo), and
    recv_for keeps that order exactly when all entries behind the match are alike (SwapKeepsOrder); and a
    client that only looks, as rtsh does, gets an answer exactly when it is among the first eight ever
    delivered (WaitDecides), so that of any number of requests answered at once it gets eight
    (FirstEightAnswered). */
module RpcClient {
  import opened Basics
  import opened Framing

  const BUF_CAP: nat := 8

  type Message = w: Wire | WireOk(w) witness Poison(0)

  /** What CH1 holds: messages, or a block chain that try_recv_into reports as broken and leaves. */
  datatype Incoming = Good(w: Message) | Broken

  datatype Core = Core(buffer: seq<Entry>, channel: seq<Incoming>)

  // ---- what each operation does ----

  function Poll(c: Core): (r: Core)
    ensures c.buffer <= r.buffer
    ensures |c.buffer| <= BUF_CAP ==> |r.buffer| <= BUF_CAP
    decreases |c.channel|
  {
    if |c.buffer| >= BUF_CAP || c.channel == [] || c.channel[0].Broken? then c
    else
      var e := EntryOf(c.channel[0].w);
      Poll(Core(if e.Some? then c.buffer + [e.value] else c.buffer, c.channel[1..]))
  }

  /** The first entry with this rid; the length when there is none. */
  function IndexOf(buffer: seq<Entry>, rid: nat): (i: nat)
    ensures i <= |buffer| && (i < |buffer| ==> buffer[i].rid == rid)
    ensures forall k :: 0 <= k < i ==> buffer[k].rid != rid
  {
    if buffer == [] || buffer[0].rid == rid then 0 else 1 + IndexOf(buffer[1..], rid)
  }

  /** The last entry moves into place i. */
  function SwapRemove(buffer: seq<Entry>, i: nat): (r: seq<Entry>)
    requires i < |buffer|
    ensures |r| == |buffer| - 1
  {
    buffer[i := buffer[|buffer| - 1]][..|buffer| - 1]
  }

  function Found(buffer: seq<Entry>, rid: nat): Option<Entry> {
    var i := IndexOf(buffer, rid);
    if i < |buffer| then Some(buffer[i]) else None
  }

  function AfterRecvFor(buffer: seq<Entry>, rid: nat): seq<Entry> {
    var i := IndexOf(buffer, rid);
    if i < |buffer| then SwapRemove(buffer, i) else buffer
  }

  // ---- runs ----

  datatype Op = Arrive(m: Incoming) | PollResponses | Recv | RecvFor(rid: nat) | RecvRawFor(rid: nat)

  /** The client with its history: everything that arrived on CH1, everything drained into the buffer,
      everything recv and recv_for returned, and the rids recv_raw_for found. */
  datatype History = History(
    core: Core, arrived: seq<Incoming>, drained: seq<Entry>, consumed: seq<Entry>, found: set<nat>)

  const START := History(Core([], []), [], [], [], {})

  function Do(h: History, op: Op): History {
    var buffer := h.core.buffer;
    match op
    case Arrive(m) => h.(core := Core(buffer, h.core.channel + [m]), arrived := h.arrived + [m])
    case PollResponses =>
      var c := Poll(h.core);
      h.(core := c, drained := h.drained + c.buffer[|buffer|..])
    case Recv =>
      if buffer == [] then h
      else h.(core := h.core.(buffer := buffer[1..]), consumed := h.consumed + [buffer[0]])
    case RecvFor(rid) =>
      var e := Found(buffer, rid);
      if e.None? then h
      else h.(core := h.core.(buffer := AfterRecvFor(buffer, rid)), consumed := h.consumed + [e.value])
    case RecvRawFor(rid) => if Found(buffer, rid).Some? then h.(found := h.found + {rid}) else h
  }

  function Run(h: History, ops: seq<Op>): History
    decreases |ops|
  {
    if ops == [] then h else Run(Do(h, ops[0]), ops[1..])
  }

  /** The entries a stretch of CH1 stands for, in order; messages without a rid stand for none. */
  function EntriesOf(ms: seq<Incoming>): seq<Entry> {
    if ms == [] then []
    else
      var rest := EntriesOf(ms[1..]);
      if ms[0].Broken? then rest
      else
        var e := EntryOf(ms[0].w);
        if e.Some? then [e.value] + rest else rest
  }

  // ---- accounting ----

  lemma {:induction false} EntriesAppend(a: seq<Incoming>, b: seq<Incoming>)
    ensures EntriesOf(a + b) == EntriesOf(a) + EntriesOf(b)
  {
    if a == [] {
      assert a + b == b;
    } else {
      assert (a + b)[1..] == a[1..] + b;
      EntriesAppend(a[1..], b);
    }
  }

  /** What a poll takes from the front of the channel is what it appends to the buffer. */
  lemma {:induction false} PollTakes(c: Core)
    ensures Takes(c, Poll(c))
    decreases |c.channel|
  {
    if |c.buffer| < BUF_CAP && c.channel != [] && c.channel[0].Good? {
      PollTakes(AfterHead(c));
      TakesHead(c, Poll(c));
    } else {
      assert c.channel[..0] == [] && EntriesOf(c.channel[..0]) == [];
    }
  }

  /** From c to r the messages at the front of the channel have become entries. */
  ghost predicate Takes(c: Core, r: Core) {
    && |r.channel| <= |c.channel|
    && var taken := |c.channel| - |r.channel|;
    c.channel == c.channel[..taken] + r.channel
    && r.buffer == c.buffer + EntriesOf(c.channel[..taken])
    && forall k :: 0 <= k < taken ==> c.channel[k].Good?
  }

  function AfterHead(c: Core): Core
    requires c.channel != [] && c.channel[0].Good?
  {
    var e := EntryOf(c.channel[0].w);
    Core(if e.Some? then c.buffer + [e.value] else c.buffer, c.channel[1..])
  }

  lemma TakesHead(c: Core, r: Core)
    requires c.channel != [] && c.channel[0].Good? && Takes(AfterHead(c), r)
    ensures Takes(c, r)
  {
    var front := c.channel[..|c.channel| - |r.channel|];
    var rest := c.channel[1..][..|front| - 1];
    assert front[0] == c.channel[0] && front[1..] == rest;
    assert forall k :: 1 <= k < |front| ==> c.channel[k] == c.channel[1..][k - 1];
    assert AfterHead(c).buffer + EntriesOf(rest) == c.buffer + EntriesOf(front);
  }

  lemma {:induction false} EntriesNone(ms: seq<Incoming>)
    requires ms == []
    ensures EntriesOf(ms) == []
  {
  }

  lemma SwapMultiset(buffer: seq<Entry>, i: nat)
    requires i < |buffer|
    ensures multiset(buffer) == multiset(SwapRemove(buffer, i)) + multiset{buffer[i]}
  {
    var last := |buffer| - 1;
    assert buffer == buffer[..last] + [buffer[last]];
    if i < last {
      assert SwapRemove(buffer, i) == buffer[..last][i := buffer[last]];
    } else {
      assert SwapRemove(buffer, i) == buffer[..last];
    }
  }

  /** Drained is what the taken part of the arrivals stands for; the rest still waits in the channel. */
  ghost predicate InOrder(h: History) {
    FromFront(h.arrived, h.core.channel, h.drained)
  }

  ghost predicate FromFront(arrived: seq<Incoming>, channel: seq<Incoming>, drained: seq<Entry>) {
    && |channel| <= |arrived|
    && var taken := |arrived| - |channel|;
    arrived[taken..] == channel && drained == EntriesOf(arrived[..taken])
    && forall k :: 0 <= k < taken ==> arrived[k].Good?
  }

  lemma MoreFromFront(arrived: seq<Incoming>, channel: seq<Incoming>, drained: seq<Entry>, k: nat)
    requires FromFront(arrived, channel, drained) && k <= |channel|
    requires forall j :: 0 <= j < k ==> channel[j].Good?
    ensures FromFront(arrived, channel[k..], drained + EntriesOf(channel[..k]))
  {
    var taken := |arrived| - |channel|;
    assert arrived[..taken + k] == arrived[..taken] + channel[..k];
    EntriesAppend(arrived[..taken], channel[..k]);
    assert arrived[taken + k..] == arrived[taken..][k..];
    forall j | taken <= j < taken + k ensures arrived[j].Good? {
      assert arrived[j] == arrived[taken..][j - taken];
    }
  }

  ghost predicate Balanced(h: History) {
    |h.core.buffer| <= BUF_CAP && multiset(h.drained) == multiset(h.consumed) + multiset(h.core.buffer)
  }

  lemma PollInOrder(h: History)
    requires InOrder(h)
    ensures InOrder(Do(h, PollResponses))
  {
    var c, r := h.core, Poll(h.core);
    PollTakes(c);
    var k := |c.channel| - |r.channel|;
    MoreFromFront(h.arrived, c.channel, h.drained, k);
    assert c.channel[k..] == r.channel && r.buffer[|c.buffer|..] == EntriesOf(c.channel[..k]);
  }

  lemma InOrderStep(h: History, op: Op)
    requires InOrder(h)
    ensures InOrder(Do(h, op))
  {
    if op.Arrive? {
      var taken := |h.arrived| - |h.core.channel|;
      assert Do(h, op).arrived[..taken] == h.arrived[..taken];
    } else if op.PollResponses? {
      PollInOrder(h);
    }
  }

  lemma TakenBalanced(h: History, h': History, e: Entry)
    requires Balanced(h) && h'.drained == h.drained && h'.consumed == h.consumed + [e]
    requires multiset(h.core.buffer) == multiset(h'.core.buffer) + multiset{e}
    requires |h'.core.buffer| <= |h.core.buffer|
    ensures Balanced(h')
  {
  }

  lemma PollBalanced(h: History)
    requires Balanced(h)
    ensures Balanced(Do(h, PollResponses))
  {
    var b, b' := h.core.buffer, Poll(h.core).buffer;
    assert multiset(b') == multiset(b) + multiset(b'[|b|..]) by {
      assert b' == b + b'[|b|..];
    }
  }

  lemma BalancedStep(h: History, op: Op)
    requires Balanced(h)
    ensures Balanced(Do(h, op))
  {
    var buffer := h.core.buffer;
    if op.PollResponses? {
      PollBalanced(h);
    } else if op.Recv? && buffer != [] {
      assert buffer == [buffer[0]] + buffer[1..];
      TakenBalanced(h, Do(h, op), buffer[0]);
    } else if op.RecvFor? && IndexOf(buffer, op.rid) < |buffer| {
      var i := IndexOf(buffer, op.rid);
      SwapMultiset(buffer, i);
      TakenBalanced(h, Do(h, op), buffer[i]);
    }
  }

  /** Over any run: drained = consumed + buffered, at most eight of them buffered, and drained is, in
      order, exactly what the messages taken from CH1 stand for; the others are still in CH1. */
  lemma {:induction false} Accounting(h: History, ops: seq<Op>)
    requires InOrder(h) && Balanced(h)
    ensures InOrder(Run(h, ops)) && Balanced(Run(h, ops))
    decreases |ops|
  {
    if ops != [] {
      InOrderStep(h, ops[0]);
      BalancedStep(h, ops[0]);
      Accounting(Do(h, ops[0]), ops[1..]);
    }
  }

  lemma StartCounts()
    ensures InOrder(START) && Balanced(START)
  {
    assert START.arrived[..0] == [];
    EntriesNone(START.arrived[..0]);
  }

  // ---- order ----

  /** recv alone returns responses in the order they arrived. */
  lemma {:induction false} Fifo(h: History, ops: seq<Op>)
    requires h.drained == h.consumed + h.core.buffer && forall k :: 0 <= k < |ops| ==> !ops[k].RecvFor?
    ensures Run(h, ops).drained == Run(h, ops).consumed + Run(h, ops).core.buffer
    decreases |ops|
  {
    if ops != [] {
      assert Do(h, ops[0]).drained == Do(h, ops[0]).consumed + Do(h, ops[0]).core.buffer;
      Fifo(Do(h, ops[0]), ops[1..]);
    }
  }

  predicate DistinctRids(buffer: seq<Entry>) {
    forall i, j :: 0 <= i < j < |buffer| ==> buffer[i].rid != buffer[j].rid
  }

  /** All entries behind place i are alike; vacuous for the last two places. */
  predicate AlikeBehind(buffer: seq<Entry>, i: nat) {
    forall j, k :: i < j < k < |buffer| ==> buffer[j] == buffer[k]
  }

  lemma SwapOrder(buffer: seq<Entry>, i: nat)
    requires i < |buffer|
    ensures SwapRemove(buffer, i) == buffer[..i] + buffer[i + 1..] <==> AlikeBehind(buffer, i)
  {
    var after, kept, last := SwapRemove(buffer, i), buffer[..i] + buffer[i + 1..], |buffer| - 1;
    if AlikeBehind(buffer, i) {
      forall j | 0 <= j < last ensures after[j] == kept[j] {
        assert kept[j] == if j < i then buffer[j] else buffer[j + 1];
        assert after[j] == if j == i then buffer[last] else buffer[j];
      }
    } else if after == kept {
      forall j | i < j < last ensures buffer[j] == buffer[j + 1] {
        assert after[j] == buffer[j] && kept[j] == buffer[j + 1];
      }
      Alike(buffer, i);
    }
  }

  /** If each entry behind i equals the next, and the first of them the last, they are all alike. */
  lemma Alike(buffer: seq<Entry>, i: nat)
    requires i < |buffer| && forall j :: i < j < |buffer| - 1 ==> buffer[j] == buffer[j + 1]
    ensures AlikeBehind(buffer, i)
  {
    forall j, k | i < j < k < |buffer| ensures buffer[j] == buffer[k] {
      Chain(buffer, j, k);
    }
  }

  lemma {:induction false} Chain(buffer: seq<Entry>, j: nat, k: nat)
    requires j <= k < |buffer| && forall l :: j <= l < k ==> buffer[l] == buffer[l + 1]
    ensures buffer[j] == buffer[k]
    decreases k - j
  {
    if j < k {
      Chain(buffer, j + 1, k);
    }
  }

  /** recv_for takes the first matching entry and no other, and keeps the order of the others exactly
      when all those behind it are alike; with different rids, when it matches one of the last two, and
      then no match is left. */
  lemma SwapKeepsOrder(buffer: seq<Entry>, rid: nat)
    requires Found(buffer, rid).Some?
    ensures var i := IndexOf(buffer, rid);
            var after := AfterRecvFor(buffer, rid);
            var kept := after == buffer[..i] + buffer[i + 1..];
            && multiset(buffer) == multiset(after) + multiset{buffer[i]}
            && (kept <==> AlikeBehind(buffer, i))
            && (DistinctRids(buffer) ==> (kept <==> i + 2 >= |buffer|) && Found(after, rid).None?)
  {
    var i := IndexOf(buffer, rid);
    SwapMultiset(buffer, i);
    SwapOrder(buffer, i);
    if DistinctRids(buffer) && i + 2 < |buffer| {
      assert buffer[i + 1] != buffer[i + 2];
    }
  }

  // ---- a broken chain ----

  /** A broken chain at the head of CH1 stays there, and nothing is drained from then on. */
  lemma {:induction false} BrokenStalls(h: History, ops: seq<Op>)
    requires h.core.channel != [] && h.core.channel[0].Broken?
    ensures var r := Run(h, ops);
            r.drained == h.drained && r.core.channel != [] && r.core.channel[0].Broken?
    decreases |ops|
  {
    if ops != [] {
      BrokenStalls(Do(h, ops[0]), ops[1..]);
    }
  }

  // ---- a client that only looks ----

  predicate LooksOnly(ops: seq<Op>) {
    forall k :: 0 <= k < |ops| ==> !ops[k].Recv? && !ops[k].RecvFor?
  }

  /** Nothing is ever freed: the buffer only grows, and once it is full it is fixed while CH1 fills up. */
  lemma {:induction false} LookingFreesNothing(h: History, ops: seq<Op>)
    requires LooksOnly(ops) && |h.core.buffer| <= BUF_CAP
    ensures var r := Run(h, ops);
            && r.consumed == h.consumed && h.core.buffer <= r.core.buffer && |r.core.buffer| <= BUF_CAP
            && (|h.core.buffer| == BUF_CAP ==> r.core.buffer == h.core.buffer && h.core.channel <= r.core.channel)
    decreases |ops|
  {
    if ops != [] {
      LookingFreesNothing(Do(h, ops[0]), ops[1..]);
    }
  }

  function Rids(buffer: seq<Entry>): (r: set<nat>)
    ensures |r| <= |buffer|
  {
    if buffer == [] then {} else {buffer[0].rid} + Rids(buffer[1..])
  }

  lemma {:induction false} RidsHave(buffer: seq<Entry>, i: nat)
    requires i < |buffer|
    ensures buffer[i].rid in Rids(buffer)
  {
    if i > 0 {
      RidsHave(buffer[1..], i - 1);
    }
  }

  lemma {:induction false} RidsAppend(a: seq<Entry>, b: seq<Entry>)
    ensures Rids(a + b) == Rids(a) + Rids(b)
  {
    if a == [] {
      assert a + b == b;
    } else {
      assert (a + b)[1..] == a[1..] + b;
      RidsAppend(a[1..], b);
    }
  }

  lemma RidsGrow(a: seq<Entry>, b: seq<Entry>)
    requires a <= b
    ensures Rids(a) <= Rids(b)
  {
    assert b == a + b[|a|..];
    RidsAppend(a, b[|a|..]);
  }

  lemma {:induction false} FoundStay(h: History, ops: seq<Op>)
    requires LooksOnly(ops) && |h.core.buffer| <= BUF_CAP && h.found <= Rids(h.core.buffer)
    ensures Run(h, ops).found <= Rids(Run(h, ops).core.buffer) && |Run(h, ops).core.buffer| <= BUF_CAP
    decreases |ops|
  {
    if ops != [] {
      var h1 := Do(h, ops[0]);
      RidsGrow(h.core.buffer, h1.core.buffer);
      if ops[0].RecvRawFor? && Found(h.core.buffer, ops[0].rid).Some? {
        RidsHave(h.core.buffer, IndexOf(h.core.buffer, ops[0].rid));
      }
      FoundStay(h1, ops[1..]);
    }
  }

  lemma {:induction false} SubsetSize(a: set<nat>, b: set<nat>)
    requires a <= b
    ensures |a| <= |b|
    decreases |b|
  {
    if a != {} {
      var x :| x in a;
      SubsetSize(a - {x}, b - {x});
    }
  }

  /** In its whole life such a client finds the answers to at most eight different requests. */
  lemma AtMostEightFound(ops: seq<Op>)
    requires LooksOnly(ops)
    ensures |Run(START, ops).found| <= BUF_CAP
  {
    FoundStay(START, ops);
    SubsetSize(Run(START, ops).found, Rids(Run(START, ops).core.buffer));
  }

  // ---- rtsh ----

  const MAX_SPINS: nat := 64

  datatype Waited = Waited(core: Core, data: Option<seq<byte>>)

  /** wait_raw: wakes holds what has arrived by each wake-up before the deadline. */
  function Wait(c: Core, rid: nat, wakes: seq<seq<Incoming>>, spins: nat): Waited
    decreases |wakes|
  {
    if wakes == [] then Waited(c, None)
    else
      var c1 := Poll(Core(c.buffer, c.channel + wakes[0]));
      var e := Found(c1.buffer, rid);
      if e.Some? then Waited(c1, Some(e.value.data))
      else if spins + 1 > MAX_SPINS then Waited(c1, None)
      else Wait(c1, rid, wakes[1..], spins + 1)
  }

  datatype Call = Call(rid: nat, wakes: seq<seq<Incoming>>)

  /** The rids answered over a life of such calls. */
  function Answered(c: Core, calls: seq<Call>): set<nat>
    decreases |calls|
  {
    if calls == [] then {}
    else
      var w := Wait(c, calls[0].rid, calls[0].wakes, 0);
      (if w.data.Some? then {calls[0].rid} else {}) + Answered(w.core, calls[1..])
  }

  lemma {:induction false} Append(h: History, a: seq<Op>, b: seq<Op>)
    ensures Run(h, a + b) == Run(Run(h, a), b)
    decreases |a|
  {
    if a == [] {
      assert a + b == b;
    } else {
      assert (a + b)[1..] == a[1..] + b;
      Append(Do(h, a[0]), a[1..], b);
    }
  }

  lemma One(h: History, op: Op)
    ensures Run(h, [op]) == Do(h, op)
  {
    assert [op][1..] == [];
  }

  function Arrivals(ms: seq<Incoming>): (ops: seq<Op>)
    ensures LooksOnly(ops)
  {
    if ms == [] then [] else [Arrive(ms[0])] + Arrivals(ms[1..])
  }

  lemma {:induction false} Arrived(h: History, ms: seq<Incoming>)
    ensures var r := Run(h, Arrivals(ms));
            r.core == Core(h.core.buffer, h.core.channel + ms) && r.found == h.found
    decreases |ms|
  {
    if ms != [] {
      assert Arrivals(ms)[1..] == Arrivals(ms[1..]);
      assert h.core.channel + ms == h.core.channel + [ms[0]] + ms[1..];
      Arrived(Do(h, Arrive(ms[0])), ms[1..]);
    }
  }

  /** One wake-up of wait_raw: arrivals, a poll, a look. */
  lemma WakeRuns(h: History, rid: nat, ms: seq<Incoming>) returns (ops: seq<Op>)
    ensures LooksOnly(ops)
    ensures var c := Poll(Core(h.core.buffer, h.core.channel + ms));
            && Run(h, ops).core == c
            && Run(h, ops).found == if Found(c.buffer, rid).Some? then h.found + {rid} else h.found
  {
    var h1 := Run(h, Arrivals(ms));
    var polled := Do(h1, PollResponses);
    Arrived(h, ms);
    Append(h, Arrivals(ms), [PollResponses]);
    One(h1, PollResponses);
    Append(h, Arrivals(ms) + [PollResponses], [RecvRawFor(rid)]);
    One(polled, RecvRawFor(rid));
    ops := Arrivals(ms) + [PollResponses] + [RecvRawFor(rid)];
  }

  lemma {:induction false} WaitRuns(h: History, rid: nat, wakes: seq<seq<Incoming>>, spins: nat) returns (ops: seq<Op>)
    ensures LooksOnly(ops)
    ensures var w := Wait(h.core, rid, wakes, spins);
            && Run(h, ops).core == w.core
            && Run(h, ops).found == if w.data.Some? then h.found + {rid} else h.found
    decreases |wakes|
  {
    ops := [];
    if wakes != [] {
      ops := WakeRuns(h, rid, wakes[0]);
      var h1 := Run(h, ops);
      if Found(h1.core.buffer, rid).None? && spins + 1 <= MAX_SPINS {
        var more := WaitRuns(h1, rid, wakes[1..], spins + 1);
        Append(h, ops, more);
        ops := ops + more;
      }
    }
  }

  lemma {:induction false} CallsRun(h: History, calls: seq<Call>) returns (ops: seq<Op>)
    ensures LooksOnly(ops) && Run(h, ops).found == h.found + Answered(h.core, calls)
    decreases |calls|
  {
    ops := [];
    if calls != [] {
      ops := WaitRuns(h, calls[0].rid, calls[0].wakes, 0);
      var more := CallsRun(Run(h, ops), calls[1..]);
      Append(h, ops, more);
      ops := ops + more;
    }
  }

  /** However many calls rtsh makes and whatever the server sends, at most eight rids are answered. */
  lemma EightAnswers(calls: seq<Call>)
    ensures |Answered(START.core, calls)| <= BUF_CAP
  {
    var ops := CallsRun(START, calls);
    assert Run(START, ops).found == Answered(START.core, calls);
    AtMostEightFound(ops);
  }

  // ---- when a wait succeeds ----

  function Eight(es: seq<Entry>): seq<Entry> {
    if |es| <= BUF_CAP then es else es[..BUF_CAP]
  }

  /** The messages before the first broken chain. */
  function Unbroken(ms: seq<Incoming>): (r: seq<Incoming>)
    ensures r <= ms
  {
    if ms == [] || ms[0].Broken? then [] else [ms[0]] + Unbroken(ms[1..])
  }

  /** What the buffer can hold at most when CH1 is followed by more. */
  function Reach(c: Core, more: seq<Incoming>): seq<Entry> {
    Eight(c.buffer + EntriesOf(Unbroken(c.channel + more)))
  }

  lemma ReachAfterHead(c: Core, more: seq<Incoming>)
    requires c.channel != [] && c.channel[0].Good?
    ensures Reach(AfterHead(c), more) == Reach(c, more)
  {
    var all := c.channel + more;
    assert all[0] == c.channel[0] && all[1..] == c.channel[1..] + more;
    var rest := Unbroken(all[1..]);
    assert ([all[0]] + rest)[1..] == rest;
    assert AfterHead(c).buffer + EntriesOf(rest) == c.buffer + EntriesOf([all[0]] + rest);
  }

  /** Polling changes nothing of what is within reach, and brings all of it that has arrived. */
  lemma {:induction false} PollReaches(c: Core, more: seq<Incoming>)
    requires |c.buffer| <= BUF_CAP
    ensures Reach(Poll(c), more) == Reach(c, more) && Poll(c).buffer == Reach(c, [])
    decreases |c.channel|
  {
    assert c.channel + [] == c.channel;
    if |c.buffer| < BUF_CAP && c.channel != [] && c.channel[0].Good? {
      PollReaches(AfterHead(c), more);
      ReachAfterHead(c, more);
      ReachAfterHead(c, []);
    } else if |c.buffer| == BUF_CAP {
      assert Eight(c.buffer + EntriesOf(Unbroken(c.channel))) == c.buffer;
    } else {
      assert Unbroken(c.channel) == [] && c.buffer + [] == c.buffer;
    }
  }

  lemma {:induction false} UnbrokenGrows(a: seq<Incoming>, b: seq<Incoming>)
    ensures Unbroken(a) <= Unbroken(a + b)
  {
    if a != [] && a[0].Good? {
      assert (a + b)[0] == a[0] && (a + b)[1..] == a[1..] + b;
      UnbrokenGrows(a[1..], b);
    }
  }

  lemma ReachGrows(c: Core, more: seq<Incoming>)
    ensures Reach(c, []) <= Reach(c, more)
  {
    assert c.channel + [] == c.channel;
    UnbrokenGrows(c.channel, more);
    var a, b := Unbroken(c.channel), Unbroken(c.channel + more);
    assert b == a + b[|a|..];
    EntriesAppend(a, b[|a|..]);
    assert c.buffer + EntriesOf(a) <= c.buffer + EntriesOf(b);
  }

  lemma {:induction false} FoundEarly(a: seq<Entry>, b: seq<Entry>, rid: nat)
    requires a <= b && Found(a, rid).Some?
    ensures Found(b, rid) == Found(a, rid)
  {
    if a[0].rid != rid {
      FoundEarly(a[1..], b[1..], rid);
    }
  }

  /** What arrives by the first n wake-ups. */
  function Heard(wakes: seq<seq<Incoming>>, n: nat): seq<Incoming>
    decreases |wakes|
  {
    if wakes == [] || n == 0 then [] else wakes[0] + Heard(wakes[1..], n - 1)
  }

  function DataOf(e: Option<Entry>): Option<seq<byte>> {
    if e.Some? then Some(e.value.data) else None
  }

  /** After a wake-up the same is within reach, and the buffer holds the beginning of it, all of it when
      nothing more comes. */
  lemma WakeReaches(c: Core, now: seq<Incoming>, rest: seq<Incoming>)
    requires |c.buffer| <= BUF_CAP
    ensures var c1 := Poll(Core(c.buffer, c.channel + now));
            && Reach(c1, rest) == Reach(c, now + rest) && c1.buffer <= Reach(c, now + rest)
            && (rest == [] ==> c1.buffer == Reach(c, now + rest))
  {
    var c0 := Core(c.buffer, c.channel + now);
    assert c.channel + (now + rest) == c0.channel + rest;
    PollReaches(c0, rest);
    ReachGrows(c0, rest);
  }

  lemma {:induction false} WaitFrom(c: Core, rid: nat, wakes: seq<seq<Incoming>>, spins: nat)
    requires |c.buffer| <= BUF_CAP && spins <= MAX_SPINS
    ensures Wait(c, rid, wakes, spins).data
         == if wakes == [] then None else DataOf(Found(Reach(c, Heard(wakes, MAX_SPINS + 1 - spins)), rid))
    decreases |wakes|
  {
    hide Poll, Reach;
    if wakes != [] {
      var c1 := Poll(Core(c.buffer, c.channel + wakes[0]));
      var rest := Heard(wakes[1..], MAX_SPINS - spins);
      WakeReaches(c, wakes[0], rest);
      if Found(c1.buffer, rid).Some? {
        FoundEarly(c1.buffer, Reach(c, wakes[0] + rest), rid);
      } else if spins < MAX_SPINS && wakes[1..] != [] {
        WaitFrom(c1, rid, wakes[1..], spins + 1);
      } else {
        assert rest == [];
      }
    }
  }

  /** A wait succeeds exactly when at least one wake-up comes and the rid is among the first eight of the
      buffer, then CH1, then what arrives by the first 65 wake-ups, up to a broken chain; and it returns
      the first such entry's data. */
  lemma WaitDecides(c: Core, rid: nat, wakes: seq<seq<Incoming>>)
    requires |c.buffer| <= BUF_CAP
    ensures Wait(c, rid, wakes, 0).data
         == if wakes == [] then None else DataOf(Found(Reach(c, Heard(wakes, 65)), rid))
  {
    WaitFrom(c, rid, wakes, 0);
  }

  /** On a full buffer: exactly when the rid is buffered already, whatever arrives; nothing is polled. */
  lemma FullDecides(c: Core, rid: nat, wakes: seq<seq<Incoming>>)
    requires |c.buffer| == BUF_CAP
    ensures Wait(c, rid, wakes, 0).data.Some? <==> wakes != [] && Found(c.buffer, rid).Some?
    ensures Wait(c, rid, wakes, 0).core.buffer == c.buffer && c.channel <= Wait(c, rid, wakes, 0).core.channel
  {
    WaitDecides(c, rid, wakes);
    assert Reach(c, Heard(wakes, 65)) == c.buffer;
    FullStays(c, rid, wakes, 0);
  }

  lemma {:induction false} FullStays(c: Core, rid: nat, wakes: seq<seq<Incoming>>, spins: nat)
    requires |c.buffer| == BUF_CAP
    ensures var w := Wait(c, rid, wakes, spins); w.core.buffer == c.buffer && c.channel <= w.core.channel
    decreases |wakes|
  {
    if wakes != [] && Found(c.buffer, rid).None? && spins + 1 <= MAX_SPINS {
      FullStays(Core(c.buffer, c.channel + wakes[0]), rid, wakes[1..], spins + 1);
    }
  }

  // ---- a life in which every request is answered at once ----

  /** The server's answer to rid, with an empty result. */
  function AnswerTo(rid: u64): Incoming {
    Good(Answer(rid, [], Filled(PAYLOAD_SIZE - 8)))
  }

  lemma AnswerToReads(rid: u64)
    ensures EntryOf(AnswerTo(rid).w) == Some(Entry(rid, Filled(PAYLOAD_SIZE - 8)))
  {
    AnswerReads(rid, [], Filled(PAYLOAD_SIZE - 8));
    assert [] + Filled(PAYLOAD_SIZE - 8) == Filled(PAYLOAD_SIZE - 8);
  }

  /** Calls with rids from..to, each answered before its first wake-up. */
  function Prompt(from: nat, to: u64): seq<Call>
    requires from <= to
    decreases (to as int) - from
  {
    if from == to then [] else [Call(from, [[AnswerTo(from)]])] + Prompt(from + 1, to)
  }

  /** The buffer holds the answers to 0..k. */
  predicate Holds(c: Core, k: nat) {
    && |c.buffer| == k <= BUF_CAP
    && forall i :: 0 <= i < k ==> c.buffer[i] == Entry(i, Filled(PAYLOAD_SIZE - 8))
  }

  lemma NotHeld(buffer: seq<Entry>, rid: nat)
    requires forall i :: 0 <= i < |buffer| ==> buffer[i].rid != rid
    ensures Found(buffer, rid).None?
  {
  }

  /** While there is room the call is answered and its answer stays. */
  lemma PromptOne(c: Core, k: nat)
    requires Holds(c, k) && k < BUF_CAP && c.channel == []
    ensures var w := Wait(c, k, [[AnswerTo(k)]], 0);
            w.data == Some(Filled(PAYLOAD_SIZE - 8)) && Holds(w.core, k + 1) && w.core.channel == []
  {
    var c0 := Core(c.buffer, c.channel + [AnswerTo(k)]);
    AnswerToReads(k);
    assert c0.channel == [AnswerTo(k)] && c0.channel[1..] == [];
    var full := Core(c.buffer + [Entry(k, Filled(PAYLOAD_SIZE - 8))], []);
    assert Poll(full) == full;
    assert Poll(c0) == full;
    NotHeld(c.buffer, k);
    assert full.buffer[..k] == c.buffer;
    FoundLast(c.buffer, full.buffer[k]);
  }

  lemma {:induction false} FoundLast(buffer: seq<Entry>, e: Entry)
    requires Found(buffer, e.rid).None?
    ensures Found(buffer + [e], e.rid) == Some(e)
  {
    if buffer != [] {
      assert (buffer + [e])[1..] == buffer[1..] + [e];
      assert buffer[0].rid != e.rid;
      FoundLast(buffer[1..], e);
    }
  }

  /** Once full, the call fails although its answer lies in CH1. */
  lemma PromptFull(c: Core, k: u64)
    requires Holds(c, BUF_CAP) && k >= BUF_CAP
    ensures var w := Wait(c, k, [[AnswerTo(k)]], 0);
            w.data.None? && Holds(w.core, BUF_CAP) && AnswerTo(k) in w.core.channel
  {
    NotHeld(c.buffer, k);
    FullDecides(c, k, [[AnswerTo(k)]]);
    assert Wait(c, k, [[AnswerTo(k)]], 0).core == Core(c.buffer, c.channel + [AnswerTo(k)]);
  }

  /** The rids below n, of the first eight. */
  function FirstEight(n: nat): (r: set<nat>)
    ensures forall i: nat :: i in r <==> i < n && i < BUF_CAP
  {
    if n == 0 then {} else FirstEight(n - 1) + if n - 1 < BUF_CAP then {n - 1} else {}
  }

  lemma {:induction false} PromptAnswered(c: Core, from: nat, to: u64)
    requires from <= to && Holds(c, if from < BUF_CAP then from else BUF_CAP) && (from < BUF_CAP ==> c.channel == [])
    ensures Answered(c, Prompt(from, to)) + FirstEight(from) == FirstEight(to)
    decreases (to as int) - from
  {
    hide Wait, AnswerTo;
    if from < to {
      var w := Wait(c, from, [[AnswerTo(from)]], 0);
      assert Prompt(from, to)[1..] == Prompt(from + 1, to);
      if from < BUF_CAP {
        PromptOne(c, from);
      } else {
        PromptFull(c, from);
      }
      PromptAnswered(w.core, from + 1, to);
    }
  }

  /** Of n requests whose correct answers all arrive at once, exactly the first eight are answered. */
  lemma FirstEightAnswered(n: u64)
    ensures Answered(START.core, Prompt(0, n)) == FirstEight(n)
  {
    PromptAnswered(START.core, 0, n);
  }

  // ---- the code ----

  class Client {
    const buf: array<Entry>
    var len: nat
    var channel: seq<Incoming>

    ghost predicate Valid()
      reads this
    {
      buf.Length == BUF_CAP && len <= BUF_CAP
    }

    ghost function Abstract(): Core
      requires Valid()
      reads this, buf
    {
      Core(buf[..len], channel)
    }

    constructor ()
      ensures Valid() && fresh(buf) && Abstract() == START.core
    {
      buf := new Entry[BUF_CAP](_ => Entry(0, []));
      len, channel := 0, [];
    }

    method PollResponses() returns (count: nat)
      requires Valid()
      modifies this`len, this`channel, buf
      ensures Valid() && Abstract() == Poll(old(Abstract())) && count == len - old(len)
    {
      count := 0;
      while len < BUF_CAP
        invariant Valid() && count == len - old(len)
        invariant Poll(Abstract()) == Poll(old(Abstract()))
        decreases |channel|
      {
        if channel == [] || channel[0].Broken? {
          break;
        }
        var entry := EntryOf(channel[0].w);
        channel := channel[1..];
        if entry.None? {
          continue;
        }
        buf[len] := entry.value;
        assert buf[..len + 1] == buf[..len] + [entry.value];
        len, count := len + 1, count + 1;
      }
    }

    method Recv() returns (e: Option<Entry>)
      requires Valid()
      modifies this`len, buf
      ensures Valid()
      ensures var b := old(Abstract()).buffer;
              if b == [] then e.None? && Abstract() == old(Abstract())
              else e == Some(b[0]) && Abstract() == old(Abstract()).(buffer := b[1..])
    {
      if len == 0 {
        return None;
      }
      e := Some(buf[0]);
      len := len - 1;
      forall k | 0 <= k < len {
        buf[k] := buf[k + 1];
      }
      buf[len] := Entry(0, []);
    }

    method RecvFor(rid: nat) returns (e: Option<Entry>)
      requires Valid()
      modifies this`len, buf
      ensures Valid() && e == Found(old(Abstract()).buffer, rid)
      ensures Abstract() == old(Abstract()).(buffer := AfterRecvFor(old(Abstract()).buffer, rid))
    {
      var i := Search(rid);
      if i == len {
        return None;
      }
      e := Some(buf[i]);
      len := len - 1;
      buf[i] := buf[len];
      buf[len] := Entry(0, []);
    }

    method RecvRawFor(rid: nat) returns (data: Option<seq<byte>>)
      requires Valid()
      ensures var e := Found(Abstract().buffer, rid);
              data == if e.Some? then Some(e.value.data) else None
    {
      var i := Search(rid);
      return if i < len then Some(buf[i].data) else None;
    }

    method Search(rid: nat) returns (i: nat)
      requires Valid()
      ensures i == IndexOf(Abstract().buffer, rid)
    {
      ghost var b := buf[..len];
      i := 0;
      while i < len && buf[i].rid != rid
        invariant i <= len && IndexOf(b, rid) == i + IndexOf(b[i..], rid)
      {
        assert b[i..][1..] == b[i + 1..];
        i := i + 1;
      }
    }
  }

  lemma WaitOnce(c: Core, rid: nat, wakes: seq<seq<Incoming>>, i: nat, spins: nat)
    requires i < |wakes|
    ensures var c1 := Poll(Core(c.buffer, c.channel + wakes[i]));
            var e := Found(c1.buffer, rid);
            Wait(c, rid, wakes[i..], spins)
            == if e.Some? then Waited(c1, Some(e.value.data))
               else if spins + 1 > MAX_SPINS then Waited(c1, None)
               else Wait(c1, rid, wakes[i + 1..], spins + 1)
  {
    assert wakes[i..][0] == wakes[i] && wakes[i..][1..] == wakes[i + 1..];
  }

  /** wait_raw of rtsh. */
  method WaitRaw(client: Client, rid: nat, wakes: seq<seq<Incoming>>) returns (data: Option<seq<byte>>)
    requires client.Valid()
    modifies client, client.buf
    ensures client.Valid()
    ensures Waited(client.Abstract(), data) == Wait(old(client.Abstract()), rid, wakes, 0)
  {
    var i, spins: nat := 0, 0;
    ghost var goal := Wait(client.Abstract(), rid, wakes, 0);
    assert wakes[0..] == wakes;
    while i < |wakes|
      invariant client.Valid() && 0 <= i <= |wakes|
      invariant Wait(client.Abstract(), rid, wakes[i..], spins) == goal
    {
      WaitOnce(client.Abstract(), rid, wakes, i, spins);
      client.channel := client.channel + wakes[i];
      i := i + 1;
      var n := client.PollResponses();
      data := client.RecvRawFor(rid);
      if data.Some? {
        return data;
      }
      spins := spins + 1;
      if spins > MAX_SPINS {
        return None;
      }
    }
    return None;
  }
}
