/** Waiting for the chassis's answer: bytes are moved from the UART into the 32-byte buffer as far as
    there is room, and the parser is called, until it returns a frame or time runs out.
    Main result: the frame returned is the first one of the bytes received, however they trickled in;
    and since a parse without result leaves room for 16, no byte waits if no poll finds more (AwaitFrame). */
module Transact {
  import opened Basics
  import opened FrameParser

  const ROOM: nat := 16

  lemma {:induction false} ConcatAppend(a: seq<seq<byte>>, b: seq<seq<byte>>)
    ensures Concat(a + b) == Concat(a) + Concat(b)
  {
    if a == [] {
      assert a + b == b;
    } else {
      assert (a + b)[1..] == a[1..] + b;
      ConcatAppend(a[1..], b);
    }
  }

  lemma ConcatOne(chunk: seq<byte>)
    ensures Concat([chunk]) == chunk
  {
    assert [chunk][1..] == [];
    assert Concat([chunk][1..]) == [];
  }

  /** The bytes of the first i polls. */
  lemma PollBytes(polls: seq<seq<byte>>, i: nat)
    requires i < |polls|
    ensures Concat(polls[..i + 1]) == Concat(polls[..i]) + polls[i]
  {
    assert polls[..i + 1] == polls[..i] + [polls[i]];
    ConcatAppend(polls[..i], [polls[i]]);
    ConcatOne(polls[i]);
  }

  lemma PollsBefore(polls: seq<seq<byte>>, i: nat)
    requires i <= |polls|
    ensures Concat(polls) == Concat(polls[..i]) + Concat(polls[i..])
  {
    assert polls == polls[..i] + polls[i..];
    ConcatAppend(polls[..i], polls[i..]);
  }

  /** drain_uart: fifo is what the UART holds, fifo' what it still holds. */
  method DrainUart(fifo: seq<byte>, buf: array<byte>, len: nat) returns (fifo': seq<byte>, len': nat)
    requires buf.Length == RX_BUF && len <= RX_BUF
    modifies buf
    ensures len <= len' <= RX_BUF && (fifo' == [] || len' == RX_BUF)
    ensures len' - len <= |fifo| && fifo' == fifo[len' - len..]
    ensures buf[..len'] == old(buf[..len]) + fifo[..len' - len]
  {
    fifo', len' := fifo, len;
    while len' < buf.Length && fifo' != []
      invariant len <= len' <= RX_BUF && len' - len <= |fifo| && fifo' == fifo[len' - len..]
      invariant buf[..len'] == old(buf[..len]) + fifo[..len' - len]
    {
      buf[len'] := fifo'[0];
      assert buf[..len' + 1] == buf[..len'] + [fifo[len' - len]];
      fifo', len' := fifo'[1..], len' + 1;
    }
  }

  /** One turn: move what fits, parse. seen is what has been moved out of the UART. */
  method PollOnce(fifo: seq<byte>, buf: array<byte>, len: nat, ghost seen: seq<byte>)
    returns (frame: Option<Frame>, fifo': seq<byte>, len': nat, ghost seen': seq<byte>)
    requires buf.Length == RX_BUF && len <= ROOM && Parse(seen) == Parsed(None, buf[..len])
    modifies buf
    ensures seen' + fifo' == seen + fifo && (|fifo| <= ROOM ==> fifo' == [])
    ensures len' <= RX_BUF && Parse(seen') == Parsed(frame, buf[..len']) && (frame.None? ==> len' <= ROOM)
  {
    fifo', len' := DrainUart(fifo, buf, len);
    ghost var moved := fifo[..len' - len];
    seen' := seen + moved;
    assert fifo == moved + fifo';
    ParseExtends(seen, moved);
    ParseSound(seen');
    frame, len' := ParseFrame(buf, len');
  }

  /** The receiving loop of transact; polls[i] arrives before poll i, and the deadline is after the last. */
  method AwaitFrame(polls: seq<seq<byte>>) returns (frame: Option<Frame>, ghost seen: seq<byte>)
    ensures seen <= Concat(polls) && frame == Parse(seen).frame
    ensures (forall i :: 0 <= i < |polls| ==> |polls[i]| <= ROOM) ==> frame == Parse(Concat(polls)).frame
  {
    var buf := new byte[RX_BUF];
    var len: nat := 0;
    var fifo := [];
    seen := [];
    frame := None;
    var i := 0;
    while i < |polls| && frame.None?
      invariant 0 <= i <= |polls| && seen + fifo == Concat(polls[..i]) && frame == Parse(seen).frame
      invariant frame.None? ==> len <= ROOM && Parse(seen) == Parsed(None, buf[..len])
      invariant (forall k :: 0 <= k < |polls| ==> |polls[k]| <= ROOM) ==> fifo == []
    {
      PollBytes(polls, i);
      assert seen + (fifo + polls[i]) == seen + fifo + polls[i];
      assert [] + polls[i] == polls[i];
      frame, fifo, len, seen := PollOnce(fifo + polls[i], buf, len, seen);
      i := i + 1;
    }
    PollsBefore(polls, i);
    assert Concat(polls) == seen + (fifo + Concat(polls[i..]));
    ParseExtends(seen, fifo + Concat(polls[i..]));
    if frame.None? {
      assert polls[i..] == [] && fifo + Concat(polls[i..]) == fifo;
      assert seen + [] == seen;
    }
  }
}
