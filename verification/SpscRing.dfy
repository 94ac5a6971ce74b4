/** The three single-producer single-consumer rings of the firmware as one parametrised machine,
    producer and consumer interleaved at every load, store and slot access.
    Main results: each step refines a bounded FIFO queue, across index wrap-around (StepRefines,
    RunIsFifo, FirmwareFifo); a push fails, or a pop finds nothing, only if the queue was full, or empty,
    when the other side's index was loaded; and every run of a ring is FIFO exactly when its capacity
    divides the range of its counters, or so few items are let in that none shares a slot with another
    across the wrap-around (CapacityDecides). */
module SpscRing {
  import opened Basics
  import opened Machine
  import Modular

  /** Indices count modulo `modulus`, select a slot modulo `slots`, and a push is refused once
      `usable` items are queued. */
  datatype Shape = Shape(modulus: nat, slots: nat, usable: nat) {
    predicate Sized() {
      0 < usable <= slots && usable < modulus
    }

    /** No two of `usable` consecutive positions share a slot. */
    predicate Fits() {
      0 < slots && (modulus % slots == 0 || usable <= modulus % slots)
    }

    predicate Ok() {
      Sized() && Fits()
    }
  }

  /** Free-running usize counters, slots taken modulo the capacity. */
  const ARM_RING := Shape(W64, 8, 8)
  const TX_RING := Shape(W64, 128, 128)
  /** Masked u16 indices; one slot stays empty so that equal indices mean empty. */
  const UART_RX := Shape(256, 256, 255)

  lemma ShapesOk()
    ensures ARM_RING.Ok() && TX_RING.Ok() && UART_RX.Ok()
  {
  }

  datatype Producer<T> =
    | Resting
    | OwnLoaded(v: T, t: nat)
    | Loaded(v: T, t: nat, h: nat)
    | Written(v: T, t: nat)

  datatype Consumer<T> =
    | Waiting
    | HeadLoaded(h: nat)
    | BothLoaded(h: nat, t: nat)
    | Fetched(h: nat, v: T)

  datatype Ring<T> = Ring(
    head: nat, tail: nat, slots: seq<T>,
    producer: Producer<T>, consumer: Consumer<T>,
    sent: seq<T>, received: seq<T>,  // histories: pushes that succeeded, pops that returned
    refused: nat, missed: nat)       // pushes refused, pops that found nothing

  datatype Step<T> = Push(v: T) | Produce | Pop | Consume

  function WrapSub(sh: Shape, a: nat, b: nat): nat
    requires a < sh.modulus && b < sh.modulus
  {
    if a >= b then a - b else a + sh.modulus - b
  }

  function Inc(sh: Shape, a: nat): nat {
    if a + 1 == sh.modulus then 0 else a + 1
  }

  /** All indices are in range. */
  predicate Indexed<T>(sh: Shape, r: Ring<T>) {
    && sh.Sized() && |r.slots| == sh.slots && r.head < sh.modulus && r.tail < sh.modulus
    && (r.producer.Loaded? ==> r.producer.t < sh.modulus && r.producer.h < sh.modulus)
  }

  function Next<T>(sh: Shape, r: Ring<T>, s: Step<T>): Option<Ring<T>> {
    if !Indexed(sh, r) then None
    else match s
      case Push(v) => if r.producer.Resting? then Some(r.(producer := OwnLoaded(v, r.tail))) else None
      case Produce => Produced(sh, r)
      case Pop => if r.consumer.Waiting? then Some(r.(consumer := HeadLoaded(r.head))) else None
      case Consume => Consumed(sh, r)
  }

  function Produced<T>(sh: Shape, r: Ring<T>): Option<Ring<T>>
    requires Indexed(sh, r)
  {
    match r.producer
    case Resting => None
    case OwnLoaded(v, t) => Some(r.(producer := Loaded(v, t, r.head)))
    case Loaded(v, t, h) =>
      if WrapSub(sh, t, h) >= sh.usable then Some(r.(producer := Resting, refused := r.refused + 1))
      else Some(r.(slots := r.slots[t % sh.slots := v], producer := Written(v, t)))
    case Written(v, t) => Some(r.(tail := Inc(sh, t), sent := r.sent + [v], producer := Resting))
  }

  function Consumed<T>(sh: Shape, r: Ring<T>): Option<Ring<T>>
    requires Indexed(sh, r)
  {
    match r.consumer
    case Waiting => None
    case HeadLoaded(h) => Some(r.(consumer := BothLoaded(h, r.tail)))
    case BothLoaded(h, t) =>
      if h == t then Some(r.(consumer := Waiting, missed := r.missed + 1))
      else Some(r.(consumer := Fetched(h, r.slots[h % sh.slots])))
    case Fetched(h, v) =>
      Some(r.(head := Inc(sh, h), received := r.received + [v], consumer := Waiting))
  }

  function Moves<T>(sh: Shape): (Ring<T>, Step<T>) -> Option<Ring<T>> {
    (r: Ring<T>, s: Step<T>) => Next(sh, r, s)
  }

  /** What is queued, oldest first. */
  function Queue<T>(r: Ring<T>): seq<T>
    requires |r.received| <= |r.sent|
  {
    r.sent[|r.received|..]
  }

  // Absolute positions: the k-th item ever sent has index k % modulus, and that modulo slots is its slot.

  predicate IndexOf(sh: Shape, i: nat, k: nat)
    requires sh.Sized()
  {
    i < sh.modulus && i == k % sh.modulus
  }

  function SlotOf(sh: Shape, k: nat): (i: nat)
    requires sh.Sized()
    ensures i < sh.slots
  {
    (k % sh.modulus) % sh.slots
  }

  ghost predicate ProducerOk<T>(sh: Shape, r: Ring<T>)
    requires sh.Sized() && |r.received| <= |r.sent| && |r.slots| == sh.slots
  {
    match r.producer
    case Resting => true
    case OwnLoaded(_, t) => t == r.tail
    case Loaded(_, t, h) =>
      && t == r.tail && t < sh.modulus && h < sh.modulus
      // head may have moved on since h was loaded, never back
      && |r.sent| - |r.received| <= WrapSub(sh, t, h) <= sh.usable
    case Written(v, t) =>
      t == r.tail && |r.sent| - |r.received| < sh.usable && r.slots[SlotOf(sh, |r.sent|)] == v
  }

  ghost predicate ConsumerOk<T>(sh: Shape, r: Ring<T>)
    requires sh.Sized() && |r.received| <= |r.sent|
  {
    match r.consumer
    case Waiting => true
    case HeadLoaded(h) => h == r.head
    case BothLoaded(h, t) => h == r.head && (h != t ==> |r.received| < |r.sent|)
    case Fetched(h, v) => h == r.head && |r.received| < |r.sent| && v == r.sent[|r.received|]
  }

  ghost predicate Inv<T>(sh: Shape, r: Ring<T>)
    requires sh.Sized()
  {
    && |r.slots| == sh.slots
    && |r.received| <= |r.sent| <= |r.received| + sh.usable
    && IndexOf(sh, r.head, |r.received|) && IndexOf(sh, r.tail, |r.sent|)
    && (forall k :: |r.received| <= k < |r.sent| ==> r.slots[SlotOf(sh, k)] == r.sent[k])
    && r.received == r.sent[..|r.received|]
    && ProducerOk(sh, r) && ConsumerOk(sh, r)
  }

  // ---- index arithmetic ----

  lemma IncIndex(sh: Shape, i: nat, k: nat)
    requires sh.Sized() && IndexOf(sh, i, k)
    ensures IndexOf(sh, Inc(sh, i), k + 1)
  {
    Modular.Next(k, sh.modulus);
  }

  lemma Occupancy(sh: Shape, t: nat, h: nat, sent: nat, received: nat)
    requires sh.Sized() && IndexOf(sh, t, sent) && IndexOf(sh, h, received)
    requires received <= sent <= received + sh.usable
    ensures WrapSub(sh, t, h) == sent - received
    ensures t == h <==> sent == received
  {
    Modular.Distance(sent, received, sh.modulus);
  }

  /** Items that can be queued together never share a slot. */
  lemma OwnSlot(sh: Shape, k: nat, sent: nat)
    requires sh.Ok() && k < sent < k + sh.usable
    ensures SlotOf(sh, k) != SlotOf(sh, sent)
  {
    var x, y, d := k % sh.modulus, sent % sh.modulus, sent - k;
    Modular.Distance(sent, k, sh.modulus);
    if y >= x {
      Modular.Distance(y, x, sh.slots);
    } else {
      assert x - y == sh.modulus - d;
      SameSlot(x, y, sh.slots);
      BeyondWrap(sh, d);
    }
  }

  /** Positions in the same slot are a multiple of the number of slots apart. */
  lemma SameSlot(x: nat, y: nat, slots: nat)
    requires 0 < slots && y <= x
    ensures x % slots == y % slots ==> (x - y) % slots == 0
  {
    if x % slots == y % slots {
      var c := x / slots - y / slots;
      assert x - y == c * slots + 0 by {
        assert x == x / slots * slots + x % slots && y == y / slots * slots + y % slots;
        assert c * slots == x / slots * slots - y / slots * slots;
      }
      Modular.Remainder(x - y, slots, c, 0);
    }
  }

  /** A wrap-around of fewer than `usable` items does not end a whole number of turns back. */
  lemma BeyondWrap(sh: Shape, d: nat)
    requires sh.Ok() && 0 < d < sh.usable
    ensures (sh.modulus - d) % sh.slots != 0
  {
    var q, r := sh.modulus / sh.slots, sh.modulus % sh.slots;
    assert sh.modulus == q * sh.slots + r;
    if r == 0 {
      assert sh.modulus - d == (q - 1) * sh.slots + (sh.slots - d) by {
        assert (q - 1) * sh.slots == q * sh.slots - sh.slots;
      }
      Modular.Remainder(sh.modulus - d, sh.slots, q - 1, sh.slots - d);
    } else {
      Modular.Remainder(sh.modulus - d, sh.slots, q, r - d);
    }
  }

  // ---- every step keeps the invariant ----

  lemma ProduceKeepsInv<T>(sh: Shape, r: Ring<T>)
    requires sh.Ok() && Inv(sh, r) && !r.producer.Resting?
    ensures Indexed(sh, r) && Inv(sh, Produced(sh, r).value)
  {
    Occupancy(sh, r.tail, r.head, |r.sent|, |r.received|);
    match r.producer
    case Loaded(v, t, h) =>
      forall k | |r.received| <= k < |r.sent| && WrapSub(sh, t, h) < sh.usable
        ensures r.slots[t % sh.slots := v][SlotOf(sh, k)] == r.sent[k]
      {
        OwnSlot(sh, k, |r.sent|);
      }
      if WrapSub(sh, t, h) < sh.usable {
        FetchedSlotSafe(sh, r);
      }
    case Written(_, _) => IncIndex(sh, r.tail, |r.sent|);
    case _ =>
  }

  /** The slot a consumer is about to read is never the one a producer is about to write. */
  lemma FetchedSlotSafe<T>(sh: Shape, r: Ring<T>)
    requires sh.Ok() && Inv(sh, r) && r.producer.Loaded? && |r.sent| - |r.received| < sh.usable
    ensures |r.received| < |r.sent| ==> r.head % sh.slots != r.tail % sh.slots
  {
    if |r.received| < |r.sent| {
      OwnSlot(sh, |r.received|, |r.sent|);
    }
  }

  lemma ConsumeKeepsInv<T>(sh: Shape, r: Ring<T>)
    requires sh.Ok() && Inv(sh, r) && !r.consumer.Waiting?
    ensures Indexed(sh, r) && Inv(sh, Consumed(sh, r).value)
  {
    Occupancy(sh, r.tail, r.head, |r.sent|, |r.received|);
    match r.consumer
    case Fetched(h, v) =>
      IncIndex(sh, r.head, |r.received|);
      assert r.sent[..|r.received| + 1] == r.sent[..|r.received|] + [r.sent[|r.received|]];
    case _ =>
  }

  lemma InvStep<T>(sh: Shape, r: Ring<T>, s: Step<T>)
    requires sh.Ok() && Inv(sh, r) && Next(sh, r, s).Some?
    ensures Inv(sh, Next(sh, r, s).value)
  {
    match s
    case Produce => ProduceKeepsInv(sh, r);
    case Consume => ConsumeKeepsInv(sh, r);
    case _ =>
  }

  // ---- refinement of a bounded queue ----

  /** Publishing tail appends, publishing head removes the first item, nothing else changes the
      queue. The occupancy a producer acts on is the true one at its load of head, and a consumer
      finds the ring empty exactly when it was empty at its load of tail. */
  lemma StepRefines<T>(sh: Shape, r: Ring<T>, s: Step<T>)
    requires sh.Ok() && Inv(sh, r) && Next(sh, r, s).Some?
    ensures var t := Next(sh, r, s).value;
            && Inv(sh, t) && |Queue(t)| <= sh.usable
            && Queue(t) == (if s.Produce? && r.producer.Written? then Queue(r) + [r.producer.v]
                            else if s.Consume? && r.consumer.Fetched? then Queue(r)[1..]
                            else Queue(r))
            && (s.Consume? && r.consumer.Fetched? ==>
                  Queue(r) != [] && t.received == r.received + [Queue(r)[0]])
            && (s.Produce? && r.producer.OwnLoaded? ==>
                  WrapSub(sh, t.producer.t, t.producer.h) == |Queue(r)|)
            && t.refused - r.refused ==
                 (if s.Produce? && r.producer.Loaded? && WrapSub(sh, r.producer.t, r.producer.h) == sh.usable
                  then 1 else 0)
            && t.missed - r.missed ==
                 (if s.Consume? && r.consumer.BothLoaded? && r.consumer.h == r.consumer.t then 1 else 0)
            && (s.Consume? && r.consumer.HeadLoaded? ==>
                  (t.consumer.h == t.consumer.t <==> Queue(r) == []))
  {
    InvStep(sh, r, s);
    Occupancy(sh, r.tail, r.head, |r.sent|, |r.received|);
  }

  function Empty<T>(sh: Shape, slots: seq<T>): Ring<T> {
    Ring(0, 0, slots, Resting, Waiting, [], [], 0, 0)
  }

  lemma {:induction false} InvRun<T>(sh: Shape, r: Ring<T>, steps: seq<Step<T>>)
    requires sh.Ok() && Inv(sh, r) && Exec(Moves(sh), r, steps).Some?
    ensures Inv(sh, Exec(Moves(sh), r, steps).value)
    decreases |steps|
  {
    if steps != [] {
      InvStep(sh, r, steps[0]);
      InvRun(sh, Next(sh, r, steps[0]).value, steps[1..]);
    }
  }

  /** From the empty ring, whatever the interleaving, however often the indices wrap, and whatever the
      slots held: what came out is what went in, in order, and what has not come out is what is queued,
      at most `usable` items. */
  lemma RunIsFifo<T>(sh: Shape, slots: seq<T>, steps: seq<Step<T>>)
    requires sh.Ok() && |slots| == sh.slots && Exec(Moves(sh), Empty(sh, slots), steps).Some?
    ensures var t := Exec(Moves(sh), Empty(sh, slots), steps).value;
            |t.received| <= |t.sent| && t.sent == t.received + Queue(t) && |Queue(t)| <= sh.usable
  {
    assert Inv(sh, Empty(sh, slots));
    InvRun(sh, Empty(sh, slots), steps);
  }

  /** The three rings of the firmware. */
  lemma FirmwareFifo<T>(sh: Shape, slots: seq<T>, steps: seq<Step<T>>)
    requires sh == ARM_RING || sh == TX_RING || sh == UART_RX
    requires |slots| == sh.slots && Exec(Moves(sh), Empty(sh, slots), steps).Some?
    ensures var t := Exec(Moves(sh), Empty(sh, slots), steps).value;
            |t.received| <= |t.sent| && t.sent == t.received + Queue(t) && |Queue(t)| <= sh.usable
  {
    ShapesOk();
    RunIsFifo(sh, slots, steps);
  }

  // ---- the condition on the capacity is exact ----

  ghost predicate AlwaysFifo<T(!new)>(sh: Shape, slots: seq<T>) {
    forall steps | Exec(Moves(sh), Empty(sh, slots), steps).Some? ::
      var t := Exec(Moves(sh), Empty(sh, slots), steps).value; t.received <= t.sent
  }

  predicate AtRest<T>(sh: Shape, r: Ring<T>) {
    Indexed(sh, r) && r.producer.Resting? && r.consumer.Waiting?
  }

  /** A push from start to end. */
  lemma PushOne<T>(sh: Shape, r0: Ring<T>, run: seq<Step<T>>, r: Ring<T>, v: T)
    returns (run': seq<Step<T>>, r': Ring<T>)
    requires Exec(Moves(sh), r0, run) == Some(r) && AtRest(sh, r) && WrapSub(sh, r.tail, r.head) < sh.usable
    ensures Exec(Moves(sh), r0, run') == Some(r') && AtRest(sh, r')
    ensures r' == r.(slots := r.slots[r.tail % sh.slots := v], tail := Inc(sh, r.tail), sent := r.sent + [v])
  {
    run', r' := Go(Moves(sh), r0, run, r, Push(v));
    run', r' := Go(Moves(sh), r0, run', r', Produce);
    run', r' := Go(Moves(sh), r0, run', r', Produce);
    run', r' := Go(Moves(sh), r0, run', r', Produce);
  }

  /** A pop from start to end. */
  lemma PopOne<T>(sh: Shape, r0: Ring<T>, run: seq<Step<T>>, r: Ring<T>)
    returns (run': seq<Step<T>>, r': Ring<T>)
    requires Exec(Moves(sh), r0, run) == Some(r) && AtRest(sh, r) && r.head != r.tail
    ensures Exec(Moves(sh), r0, run') == Some(r') && AtRest(sh, r')
    ensures r' == r.(head := Inc(sh, r.head), received := r.received + [r.slots[r.head % sh.slots]])
  {
    run', r' := Go(Moves(sh), r0, run, r, Pop);
    run', r' := Go(Moves(sh), r0, run', r', Consume);
    run', r' := Go(Moves(sh), r0, run', r', Consume);
    run', r' := Go(Moves(sh), r0, run', r', Consume);
  }

  /** n items pass through an empty ring. */
  lemma {:induction false} Pass<T>(sh: Shape, r0: Ring<T>, run: seq<Step<T>>, r: Ring<T>, v: T, n: nat)
    returns (run': seq<Step<T>>, r': Ring<T>)
    requires Exec(Moves(sh), r0, run) == Some(r) && AtRest(sh, r)
    requires r.head == r.tail && r.tail + n < sh.modulus && |r.sent| == |r.received|
    ensures Exec(Moves(sh), r0, run') == Some(r') && AtRest(sh, r')
    ensures r'.head == r'.tail == r.tail + n && |r'.sent| == |r'.received|
    decreases n
  {
    run', r' := run, r;
    if n > 0 {
      run', r' := PushOne(sh, r0, run, r, v);
      run', r' := PopOne(sh, r0, run', r');
      run', r' := Pass(sh, r0, run', r', v, n - 1);
    }
  }

  /** n more items are queued; the indices do not wrap. */
  lemma {:induction false} Fill<T>(sh: Shape, r0: Ring<T>, run: seq<Step<T>>, r: Ring<T>, v: T, n: nat)
    returns (run': seq<Step<T>>, r': Ring<T>)
    requires Exec(Moves(sh), r0, run) == Some(r) && AtRest(sh, r)
    requires r.tail < r.head && r.tail + n < r.head && WrapSub(sh, r.tail, r.head) + n <= sh.usable
    ensures Exec(Moves(sh), r0, run') == Some(r') && AtRest(sh, r')
    ensures r'.head == r.head && r'.tail == r.tail + n && r'.received == r.received && r.sent <= r'.sent
    decreases n
  {
    run', r' := run, r;
    if n > 0 {
      run', r' := PushOne(sh, r0, run, r, v);
      run', r' := Fill(sh, r0, run', r', v, n - 1);
    }
  }

  /** If two items can share a slot, an item is overwritten before it is read. */
  lemma Overwritten<T>(sh: Shape, slots: seq<T>, v: T, w: T) returns (run: seq<Step<T>>, r: Ring<T>)
    requires sh.Sized() && !sh.Fits() && |slots| == sh.slots && v != w
    ensures Exec(Moves(sh), Empty(sh, slots), run) == Some(r) && !(r.received <= r.sent)
  {
    var r0, over := Empty(sh, slots), sh.modulus % sh.slots;
    LastSlot(sh);
    run, r := Pass(sh, r0, [], r0, v, sh.modulus - 1);
    var k := |r.sent|;
    run, r := PushOne(sh, r0, run, r, v);
    assert r.sent[k] == v && r.tail == 0;
    run, r := Fill(sh, r0, run, r, v, over - 1);
    run, r := PushOne(sh, r0, run, r, w);
    run, r := PopOne(sh, r0, run, r);
    assert r.received[k] == w && r.sent[k] == v;
  }

  /** The last index before the wrap-around has the slot of index `over - 1` behind it. */
  lemma LastSlot(sh: Shape)
    requires sh.Sized() && !sh.Fits()
    ensures var over := sh.modulus % sh.slots;
            0 < over < sh.usable && (sh.modulus - 1) % sh.slots == (over - 1) % sh.slots == over - 1
            && over < sh.modulus - 1
  {
    var q, over := sh.modulus / sh.slots, sh.modulus % sh.slots;
    assert sh.modulus == q * sh.slots + over;
    Modular.Remainder(sh.modulus - 1, sh.slots, q, over - 1);
    Modular.Remainder(over - 1, sh.slots, 0, over - 1);
  }

  /** A ring is FIFO in every run exactly when its capacity divides the range of its counters, or it lets
      in no more items than that division leaves over. A ring that uses all its slots, like those with
      free-running counters, needs the division. */
  lemma CapacityDecides<T(!new)>(sh: Shape, slots: seq<T>, v: T, w: T)
    requires sh.Sized() && |slots| == sh.slots && v != w
    ensures AlwaysFifo(sh, slots) <==> sh.modulus % sh.slots == 0 || sh.usable <= sh.modulus % sh.slots
    ensures sh.usable == sh.slots ==> (AlwaysFifo(sh, slots) <==> sh.modulus % sh.slots == 0)
  {
    if sh.Fits() {
      forall steps | Exec(Moves(sh), Empty(sh, slots), steps).Some?
        ensures var t := Exec(Moves(sh), Empty(sh, slots), steps).value; t.received <= t.sent
      {
        RunIsFifo(sh, slots, steps);
      }
    } else {
      var run, r := Overwritten(sh, slots, v, w);
    }
  }

  // ---- the rings as the firmware writes them ----

  /** The count items from index head on, indices taken modulo `modulus` and then `capacity`. */
  function Window<T>(slots: seq<T>, head: nat, count: nat, modulus: nat): (q: seq<T>)
    requires 0 < modulus && 0 < |slots|
    ensures |q| == count
    ensures forall i :: 0 <= i < count ==> q[i] == slots[((head + i) % modulus) % |slots|]
  {
    if count == 0 then []
    else Window(slots, head, count - 1, modulus) + [slots[((head + count - 1) % modulus) % |slots|]]
  }

  lemma SlotsApart(h: nat, i: nat, j: nat, modulus: nat, slots: nat)
    requires 0 < slots && 0 < modulus && modulus % slots == 0 && i < j < i + slots
    ensures ((h + i) % modulus) % slots != ((h + j) % modulus) % slots
  {
    Modular.Through(h + i, modulus, slots);
    Modular.Through(h + j, modulus, slots);
    Modular.Distance(h + j, h + i, slots);
  }

  /** Writing the slot after a window that leaves it free extends the window. */
  lemma WindowPush<T>(slots: seq<T>, head: nat, count: nat, modulus: nat, v: T)
    requires 0 < |slots| && 0 < modulus && modulus % |slots| == 0 && count < |slots|
    ensures Window(slots[((head + count) % modulus) % |slots| := v], head, count + 1, modulus)
         == Window(slots, head, count, modulus) + [v]
  {
    var w := slots[((head + count) % modulus) % |slots| := v];
    forall i | 0 <= i < count
      ensures Window(w, head, count, modulus)[i] == Window(slots, head, count, modulus)[i]
    {
      SlotsApart(head, i, count, modulus, |slots|);
    }
    assert Window(w, head, count, modulus) == Window(slots, head, count, modulus);
  }

  /** Moving head past the first item drops it, also when head wraps. */
  lemma WindowPop<T>(slots: seq<T>, head: nat, count: nat, modulus: nat)
    requires 0 < |slots| && head < modulus && 0 < count
    ensures Window(slots, head, count, modulus)
         == [slots[head % |slots|]]
          + Window(slots, if head + 1 == modulus then 0 else head + 1, count - 1, modulus)
  {
    var h := if head + 1 == modulus then 0 else head + 1;
    var q, rest := Window(slots, head, count, modulus), Window(slots, h, count - 1, modulus);
    forall i | 0 <= i < count - 1 ensures q[i + 1] == rest[i] {
      if h == 0 {
        Modular.Remainder(modulus + i, modulus, 1 + i / modulus, i % modulus);
      }
    }
    Modular.Remainder(head, modulus, 0, head);
    assert q == [slots[head % |slots|]] + rest;
  }

  /** The remainder of tail when it lies count items after head. */
  lemma TailIndex(head: nat, tail: nat, modulus: nat)
    requires head < modulus && tail < modulus
    ensures var count := if tail >= head then tail - head else tail + modulus - head;
            (head + count) % modulus == tail
  {
    if tail < head {
      Modular.Remainder(tail + modulus, modulus, 1, tail);
    } else {
      Modular.Remainder(tail, modulus, 0, tail);
    }
  }

  /** ArmRing and the soft UART's TxRing: free-running counters, slots taken modulo the capacity. */
  class CounterRing<T(0)> {
    const slots: array<T>
    var head: nat
    var tail: nat
    var dropped: nat

    ghost predicate Valid()
      reads this
    {
      && 0 < slots.Length < W64 && W64 % slots.Length == 0
      && head < W64 && tail < W64 && Count() <= slots.Length
    }

    function Count(): int
      reads this
    {
      if tail >= head then tail - head else tail + W64 - head
    }

    ghost function Contents(): seq<T>
      requires Valid()
      reads this, slots
    {
      Window(slots[..], head, Count(), W64)
    }

    constructor (capacity: nat)
      requires 0 < capacity < W64 && W64 % capacity == 0
      ensures Valid() && fresh(slots) && slots.Length == capacity && Contents() == [] && dropped == 0
    {
      slots := new T[capacity];
      head, tail, dropped := 0, 0, 0;
    }

    method Push(v: T) returns (ok: bool)
      requires Valid()
      modifies this`tail, this`dropped, slots
      ensures Valid()
      ensures ok <==> |old(Contents())| < slots.Length
      ensures Contents() == if ok then old(Contents()) + [v] else old(Contents())
      ensures dropped == old(dropped) + if ok then 0 else 1
    {
      var t := tail;
      var h := head;
      if (if t >= h then t - h else t + W64 - h) >= slots.Length {
        dropped := dropped + 1;
        return false;
      }
      WindowPush(slots[..], h, Count(), W64, v);
      TailIndex(h, t, W64);
      ghost var before := slots[..];
      slots[t % slots.Length] := v;
      assert slots[..] == before[t % slots.Length := v];
      tail := if t + 1 == W64 then 0 else t + 1;
      return true;
    }

    method Pop() returns (r: Option<T>)
      requires Valid()
      modifies this`head
      ensures Valid()
      ensures r.None? <==> old(Contents()) == []
      ensures old(Contents()) == (if r.Some? then [r.value] else []) + Contents()
    {
      var h := head;
      var t := tail;
      if h == t {
        return None;
      }
      WindowPop(slots[..], h, Count(), W64);
      var v := slots[h % slots.Length];
      head := if h + 1 == W64 then 0 else h + 1;
      return Some(v);
    }
  }

  /** Masked arithmetic, case by case. */
  lemma Masks(head: nat, tail: nat)
    requires head < 256 && tail < 256
    ensures (head - tail) % 256 == if head >= tail then head - tail else head + 256 - tail
    ensures (head + 1) % 256 == if head == 255 then 0 else head + 1
    ensures (tail + 1) % 256 == if tail == 255 then 0 else tail + 1
    ensures head % 256 == head && tail % 256 == tail
    ensures (tail + (head - tail) % 256) % 256 == head
  {
  }

  /** The UART receive ring: masked indices, one slot always free; a byte that does not fit is
      silently discarded. */
  class MaskedRing {
    const buf: array<int>
    var head: nat  // producer
    var tail: nat  // consumer

    ghost predicate Valid()
      reads this
    {
      buf.Length == 256 && head < 256 && tail < 256
    }

    function RxLen(): nat
      reads this
    {
      (head - tail) % 256
    }

    ghost function Contents(): seq<int>
      requires Valid()
      reads this, buf
    {
      Window(buf[..], tail, RxLen(), 256)
    }

    constructor ()
      ensures Valid() && fresh(buf) && Contents() == []
    {
      buf := new int[256];
      head, tail := 0, 0;
    }

    method PushByte(byte: int)
      requires Valid()
      modifies this`head, buf
      ensures Valid()
      ensures Contents() == if |old(Contents())| < 255 then old(Contents()) + [byte] else old(Contents())
    {
      Masks(head, tail);
      var next := (head + 1) % 256;
      if next == tail {
        return;
      }
      WindowPush(buf[..], tail, RxLen(), 256, byte);
      ghost var before := buf[..];
      buf[head] := byte;
      assert buf[..] == before[head := byte];
      head := next;
      Masks(head, tail);
    }

    method PopByte() returns (r: Option<int>)
      requires Valid()
      modifies this`tail
      ensures Valid()
      ensures r.None? <==> old(Contents()) == []
      ensures old(Contents()) == (if r.Some? then [r.value] else []) + Contents()
    {
      Masks(head, tail);
      if tail == head {
        return None;
      }
      WindowPop(buf[..], tail, RxLen(), 256);
      var byte := buf[tail];
      tail := (tail + 1) % 256;
      Masks(head, tail);
      return Some(byte);
    }
  }
}
