/** How a response travels: rid, then result bytes; in one block with a stale tail when it fits, in a
    stream frame of several blocks otherwise, and as a poison when it fits neither.
    Main results: the client recovers rid and result from either form (AnswerReads), the form says
    which (NotConfused), any self-delimiting codec decodes what was encoded (CodecSurvives), and a
    method table is discovered exactly when it is at most 2028 bytes long (DiscoveryDecides). */
module Framing {
  import opened Basics
  import opened Bytes
  import Descriptor

  const PAYLOAD_SIZE: nat := 255
  const MAX_STREAM_LEN: nat := 2036
  const RESPONSE_DATA_MAX: nat := MAX_STREAM_LEN - 8

  datatype Kind = RequestKind | ResponseKind | OtherKind

  /** What a receive yields: one block's payload, or the joined payloads of a multi-block message. */
  datatype Wire = Single(kind: Kind, payload: seq<byte>) | Multi(kind: Kind, payload: seq<byte>)

  predicate WireOk(w: Wire) {
    w.Single? ==> |w.payload| == PAYLOAD_SIZE
  }

  // ---- the server's side ----

  /** Blocks taken by a stream frame of n bytes behind its 4-byte length. */
  function BlockCount(n: nat): nat {
    (4 + n + PAYLOAD_SIZE - 1) / PAYLOAD_SIZE
  }

  /** Bytes of the blocks that the response does not write. */
  function Slack(n: nat): nat {
    if n <= PAYLOAD_SIZE then PAYLOAD_SIZE - n else BlockCount(n) * PAYLOAD_SIZE - 4 - n
  }

  /** send_response: bytes is rid and result; slack is whatever the blocks held before. */
  function Sent(bytes: seq<byte>, slack: seq<byte>): (w: Wire)
    requires |slack| == Slack(|bytes|)
    ensures WireOk(w)
  {
    if |bytes| <= PAYLOAD_SIZE then Single(ResponseKind, bytes + slack)
    else Multi(ResponseKind, Le(|bytes|, 4) + bytes + slack)
  }

  function Filled(n: nat): (s: seq<byte>)
    ensures |s| == n && forall k :: 0 <= k < n ==> s[k] == 0xFF
  {
    seq(n, _ => 0xFF)
  }

  /** poison_response. */
  function Poison(rid: nat): (w: Wire)
    ensures WireOk(w)
  {
    Single(ResponseKind, Le(rid, 8) + Filled(PAYLOAD_SIZE - 8))
  }

  /** What answers a two-way request whose result is data. */
  function Answer(rid: nat, data: seq<byte>, slack: seq<byte>): (w: Wire)
    requires |slack| == Slack(8 + |data|)
    ensures WireOk(w)
  {
    if |data| > RESPONSE_DATA_MAX then Poison(rid) else Sent(Le(rid, 8) + data, slack)
  }

  /** The response staging buffer: only buf[..len] has been written. */
  class Response {
    const buf: array<byte>
    var len: nat

    ghost predicate Valid()
      reads this
    {
      buf.Length == MAX_STREAM_LEN && len <= MAX_STREAM_LEN
    }

    function Bytes(): seq<byte>
      requires Valid()
      reads this, buf
    {
      buf[..len]
    }

    constructor ()
      ensures Valid() && fresh(buf) && Bytes() == []
    {
      buf := new byte[MAX_STREAM_LEN];
      len := 0;
    }

    method WriteRaw(rid: u64, bytes: seq<byte>) returns (ok: bool)
      requires Valid()
      modifies this`len, buf
      ensures Valid() && (ok <==> |bytes| <= RESPONSE_DATA_MAX)
      ensures Bytes() == if ok then Le(rid, 8) + bytes else old(Bytes())
      ensures Rid() == if ok then Some(rid) else old(Rid())
    {
      if |bytes| > RESPONSE_DATA_MAX {
        return false;
      }
      CopyIn(Le(rid, 8), buf, 0);
      CopyIn(bytes, buf, 8);
      len := 8 + |bytes|;
      assert buf[..len] == buf[0..8] + buf[8..8 + |bytes|];
      RidFits(rid);
      return true;
    }

    function Rid(): (r: Option<nat>)
      requires Valid()
      reads this, buf
    {
      if len >= 8 then Some(FromLe(buf[..8])) else None
    }
  }

  // ---- the client's side ----

  /** A buffered response: rid, and the result bytes behind it. */
  datatype Entry = Entry(rid: nat, data: seq<byte>)

  /** stream::decode: the announced bytes, if they are all there. */
  function Unframe(p: seq<byte>): (r: Option<seq<byte>>)
    ensures r.Some? ==> |r.value| <= MAX_STREAM_LEN
  {
    if |p| < 4 then None
    else
      var n := FromLe(p[..4]);
      if n > MAX_STREAM_LEN || 4 + n > |p| then None else Some(p[4..4 + n])
  }

  function Split(bytes: seq<byte>): Entry
    requires |bytes| >= 8
  {
    Entry(FromLe(bytes[..8]), bytes[8..])
  }

  /** What poll_responses makes of one message; None when it is taken and dropped. */
  function EntryOf(w: Wire): (e: Option<Entry>)
    requires WireOk(w)
    ensures e.Some? ==> |e.value.data| <= RESPONSE_DATA_MAX
  {
    match w
    case Single(kind, p) => if kind == OtherKind then None else Some(Split(p))
    case Multi(kind, p) =>
      if kind != ResponseKind then None
      else
        var bytes := Unframe(p);
        if bytes.None? || |bytes.value| < 8 then None else Some(Split(bytes.value))
  }

  // ---- round trip ----

  lemma RidFits(rid: nat)
    requires rid < W64
    ensures FromLe(Le(rid, 8)) == rid
  {
    Pow2Values();
    LeRoundTrip(rid, 8);
  }

  lemma LengthFits(n: nat)
    requires n <= MAX_STREAM_LEN
    ensures FromLe(Le(n, 4)) == n
  {
    Pow2Values();
    Pow2Add(8, 8);
    Pow2Below(16, 32);
    LeRoundTrip(n, 4);
  }

  lemma SplitSent(rid: nat, data: seq<byte>)
    requires rid < W64
    ensures Split(Le(rid, 8) + data) == Entry(rid, data)
  {
    RidFits(rid);
    assert (Le(rid, 8) + data)[..8] == Le(rid, 8);
    assert (Le(rid, 8) + data)[8..] == data;
  }

  lemma UnframeSent(bytes: seq<byte>, slack: seq<byte>)
    requires |bytes| <= MAX_STREAM_LEN
    ensures Unframe(Le(|bytes|, 4) + bytes + slack) == Some(bytes)
  {
    var p := Le(|bytes|, 4) + bytes + slack;
    LengthFits(|bytes|);
    assert p[..4] == Le(|bytes|, 4);
    assert p[4..4 + |bytes|] == bytes;
  }

  /** Every rid and every result that fits: one block exactly when 8 + n <= 255, and the client then
      reads the result behind which a stale tail may follow; otherwise two to eight blocks, no more than
      the bytes need, and the client reads exactly the result. */
  lemma AnswerReads(rid: nat, data: seq<byte>, slack: seq<byte>)
    requires rid < W64 && |data| <= RESPONSE_DATA_MAX && |slack| == Slack(8 + |data|)
    ensures var w := Answer(rid, data, slack);
            && (w.Single? <==> 8 + |data| <= PAYLOAD_SIZE)
            && EntryOf(w) == Some(Entry(rid, if w.Single? then data + slack else data))
            && (w.Single? ==> |data + slack| == PAYLOAD_SIZE - 8)
            && (w.Multi? ==> |slack| < PAYLOAD_SIZE && 2 <= BlockCount(8 + |data|) <= 8
                             && |w.payload| == BlockCount(8 + |data|) * PAYLOAD_SIZE)
  {
    var bytes := Le(rid, 8) + data;
    if |bytes| <= PAYLOAD_SIZE {
      assert bytes + slack == Le(rid, 8) + (data + slack);
      SplitSent(rid, data + slack);
    } else {
      UnframeSent(bytes, slack);
      SplitSent(rid, data);
    }
  }

  /** What poll_responses keeps, for any message: one block of a request or response always, split after
      eight bytes; of several blocks only a response whose announced length is at most 2036, is all there
      and holds a rid. Its rid and data are then those bytes. */
  lemma EntryDecides(w: Wire)
    requires WireOk(w)
    ensures var n := if |w.payload| >= 4 then FromLe(w.payload[..4]) else 0;
            && (EntryOf(w).Some? <==> if w.Single? then w.kind != OtherKind
                                      else w.kind == ResponseKind && 8 <= n <= 2036 && 4 + n <= |w.payload|)
            && (EntryOf(w).Some? ==> EntryOf(w).value == if w.Single?
                then Entry(FromLe(w.payload[..8]), w.payload[8..])
                else Entry(FromLe(w.payload[4..12]), w.payload[12..4 + n]))
  {
    if w.Multi? && Unframe(w.payload).Some? && |Unframe(w.payload).value| >= 8 {
      var n := FromLe(w.payload[..4]);
      assert w.payload[4..4 + n][..8] == w.payload[4..12];
      assert w.payload[4..4 + n][8..] == w.payload[12..4 + n];
    }
  }

  /** A result that is too long is answered by a poison carrying the same rid, which neither a
      variable-length number nor the descriptor parser accepts. */
  lemma PoisonReads(rid: nat, data: seq<byte>, slack: seq<byte>)
    requires rid < W64 && |data| > RESPONSE_DATA_MAX && |slack| == Slack(8 + |data|)
    ensures var e := EntryOf(Answer(rid, data, slack));
            && e == Some(Entry(rid, Filled(PAYLOAD_SIZE - 8)))
            && Take(e.value.data, 0).None? && Descriptor.Parse(e.value.data).None?
  {
    SplitSent(rid, Filled(PAYLOAD_SIZE - 8));
    TakeFilled(Filled(PAYLOAD_SIZE - 8), 0, 0, 0);
  }

  lemma {:induction false} TakeFilled(s: seq<byte>, pos: nat, v: nat, shift: nat)
    requires forall k :: 0 <= k < |s| ==> s[k] == 0xFF
    ensures TakeFrom(s, pos, v, shift).None?
    decreases |s| - pos
  {
    if pos < |s| && shift < 64 {
      TakeFilled(s, pos + 1, v + (s[pos] % 128) * Pow2(shift) % W64, shift + 7);
    }
  }

  /** The same bytes on the wire are answers to the same request; a stream frame carries one result
      only, and two results that share a block differ only by what one of them leaves unwritten. */
  lemma NotConfused(rid: nat, data: seq<byte>, slack: seq<byte>, rid': nat, data': seq<byte>, slack': seq<byte>)
    requires rid < W64 && |data| <= RESPONSE_DATA_MAX && |slack| == Slack(8 + |data|)
    requires rid' < W64 && |data'| <= RESPONSE_DATA_MAX && |slack'| == Slack(8 + |data'|)
    requires Answer(rid, data, slack) == Answer(rid', data', slack')
    ensures rid == rid'
    ensures if 8 + |data| > PAYLOAD_SIZE then data == data'
            else 8 + |data'| <= PAYLOAD_SIZE && (data <= data' || data' <= data)
  {
    AnswerReads(rid, data, slack);
    AnswerReads(rid', data', slack');
    if 8 + |data| <= PAYLOAD_SIZE {
      assert data == (data + slack)[..|data|];
      assert data' == (data' + slack')[..|data'|];
    }
  }

  /** Any codec whose decoder stops where its encoder did reads back every value that fits. */
  lemma CodecSurvives<T(!new)>(encode: T -> seq<byte>, decode: seq<byte> -> Option<T>, v: T, rid: nat, slack: seq<byte>)
    requires forall x: T, tail: seq<byte> :: decode(encode(x) + tail) == Some(x)
    requires rid < W64 && |encode(v)| <= RESPONSE_DATA_MAX && |slack| == Slack(8 + |encode(v)|)
    ensures var e := EntryOf(Answer(rid, encode(v), slack));
            e.Some? && e.value.rid == rid && decode(e.value.data) == Some(v)
  {
    AnswerReads(rid, encode(v), slack);
    assert encode(v) == encode(v) + [];
  }

  /** Discovery end to end: the client that parses the answer to INIT gets the server's method table,
      whatever the blocks held before, exactly when the encoded table fits. */
  lemma DiscoveryDecides(ms: seq<Descriptor.Method>, rid: nat, slack: seq<byte>)
    requires forall i :: 0 <= i < |ms| ==> Descriptor.MethodOk(ms[i])
    requires rid < W64 && |slack| == Slack(8 + |Descriptor.Table(ms)|)
    ensures var e := EntryOf(Answer(rid, Descriptor.Table(ms), slack));
            && e.Some? && e.value.rid == rid
            && var area := Descriptor.Parse(e.value.data);
            if |Descriptor.Table(ms)| <= RESPONSE_DATA_MAX
            then area.Some? && Descriptor.Methods(area.value) == ms
            else area.None?
  {
    var table := Descriptor.Table(ms);
    if |table| <= RESPONSE_DATA_MAX {
      AnswerReads(rid, table, slack);
      assert table == table + [];
      Descriptor.RoundTrip(ms, if 8 + |table| <= PAYLOAD_SIZE then slack else []);
    } else {
      PoisonReads(rid, table, slack);
    }
  }
}
