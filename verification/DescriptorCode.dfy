/** The descriptor's encoder, parser and iterator as loops over a position, proved to compute the
    functions of Descriptor. */
module DescriptorCode {
  import opened Basics
  import opened Bytes
  import opened Descriptor
  import Utf8

  method VarintLen(v: nat) returns (n: nat)
    ensures n == |Leb(v)|
  {
    n := 1;
    var w := v;
    while w >= 128
      invariant n + |Leb(w)| == 1 + |Leb(v)|
    {
      w := w / 128;
      n := n + 1;
    }
  }

  method PutVarint(buf: array<byte>, pos: nat, v: nat) returns (pos': nat)
    requires pos + |Leb(v)| <= buf.Length
    modifies buf
    ensures pos' == pos + |Leb(v)|
    ensures buf[..pos'] == old(buf[..pos]) + Leb(v)
  {
    pos' := pos;
    var w := v;
    while w >= 128
      invariant pos <= pos' && pos' + |Leb(w)| == pos + |Leb(v)|
      invariant buf[..pos'] + Leb(w) == old(buf[..pos]) + Leb(v)
    {
      buf[pos'] := w % 128 + 128;
      assert buf[..pos' + 1] == buf[..pos'] + [w % 128 + 128];
      w := w / 128;
      pos' := pos' + 1;
    }
    buf[pos'] := w;
    assert buf[..pos' + 1] == buf[..pos'] + [w];
    pos' := pos' + 1;
  }

  method PutByte(buf: array<byte>, pos: nat, b: byte) returns (pos': nat)
    requires pos < buf.Length
    modifies buf
    ensures pos' == pos + 1 && buf[..pos'] == old(buf[..pos]) + [b]
  {
    buf[pos] := b;
    pos' := pos + 1;
  }

  method PutBytes(buf: array<byte>, pos: nat, s: seq<byte>) returns (pos': nat)
    requires pos + |s| <= buf.Length
    modifies buf
    ensures pos' == pos + |s| && buf[..pos'] == old(buf[..pos]) + s
  {
    pos' := pos;
    var j := 0;
    while j < |s|
      invariant 0 <= j <= |s| && pos' == pos + j
      invariant buf[..pos'] == old(buf[..pos]) + s[..j]
    {
      pos' := PutByte(buf, pos', s[j]);
      j := j + 1;
    }
  }

  /** The length of the count and the entry area. */
  method BodyLen(ms: seq<Method>) returns (n: nat)
    ensures n == |Body(ms)|
  {
    n := VarintLen(|ms|);
    var i := 0;
    while i < |ms|
      invariant 0 <= i <= |ms| && n + |Entries(ms[i..])| == |Body(ms)|
    {
      var a := VarintLen(ms[i].mid);
      var b := VarintLen(|ms[i].name|);
      assert ms[i..][0] == ms[i] && ms[i..][1..] == ms[i + 1..];
      n := n + a + 1 + b + |ms[i].name|;
      i := i + 1;
    }
  }

  /** Exactly what Encode writes. */
  method EncodedLen(ms: seq<Method>) returns (n: nat)
    ensures n == |Table(ms)|
  {
    var body := BodyLen(ms);
    var len := VarintLen(body);
    n := 1 + len + body;
  }

  method PutEntry(out: array<byte>, pos: nat, m: Method) returns (pos': nat)
    requires pos + |Entry(m)| <= out.Length
    modifies out
    ensures pos' == pos + |Entry(m)| && out[..pos'] == old(out[..pos]) + Entry(m)
  {
    pos' := PutVarint(out, pos, m.mid);
    pos' := PutByte(out, pos', m.flags);
    pos' := PutVarint(out, pos', |m.name|);
    pos' := PutBytes(out, pos', m.name);
  }

  lemma EntriesFrom(ms: seq<Method>, i: nat)
    requires i < |ms|
    ensures Entries(ms[i..]) == Entry(ms[i]) + Entries(ms[i + 1..])
  {
    assert ms[i..][1..] == ms[i + 1..];
  }

  method PutEntries(out: array<byte>, pos: nat, ms: seq<Method>) returns (pos': nat)
    requires pos + |Entries(ms)| <= out.Length
    modifies out
    ensures pos' == pos + |Entries(ms)| && out[..pos'] == old(out[..pos]) + Entries(ms)
  {
    pos' := pos;
    ghost var all := old(out[..pos]) + Entries(ms);
    assert ms[0..] == ms;
    var i := 0;
    while i < |ms|
      invariant 0 <= i <= |ms| && pos' + |Entries(ms[i..])| == |all|
      invariant out[..pos'] + Entries(ms[i..]) == all
    {
      EntriesFrom(ms, i);
      pos' := PutEntry(out, pos', ms[i]);
      i := i + 1;
    }
  }

  /** Everything before the entries. */
  method PutHeader(out: array<byte>, body: nat, count: nat) returns (pos: nat)
    requires 1 + |Leb(body)| + |Leb(count)| <= out.Length
    modifies out
    ensures pos == 1 + |Leb(body)| + |Leb(count)|
    ensures out[..pos] == [PROTOCOL_VERSION] + Leb(body) + Leb(count)
  {
    pos := PutByte(out, 0, PROTOCOL_VERSION);
    pos := PutVarint(out, pos, body);
    pos := PutVarint(out, pos, count);
  }

  method Encode(ms: seq<Method>, out: array<byte>)
    requires out.Length == |Table(ms)|
    modifies out
    ensures out[..] == Table(ms)
  {
    var body := BodyLen(ms);
    assert Table(ms) == [PROTOCOL_VERSION] + Leb(body) + Leb(|ms|) + Entries(ms);
    var pos: nat := PutHeader(out, body, |ms|);
    pos := PutEntries(out, pos, ms);
    assert out[..] == out[..pos];
  }

  /** The value, and the position moved past it. */
  method TakeVarint(s: seq<byte>, pos: nat) returns (v: Option<nat>, pos': nat)
    ensures v.Some? <==> Take(s, pos).Some?
    ensures v.Some? ==> Take(s, pos) == Some(Taken(v.value, pos'))
  {
    var acc: nat, shift: nat, weight: nat := 0, 0, 1;
    pos' := pos;
    while true
      invariant weight == Pow2(shift)
      invariant TakeFrom(s, pos', acc, shift) == Take(s, pos)
      decreases |s| - pos'
    {
      if pos' >= |s| {
        return None, pos';
      }
      var b := s[pos'];
      pos' := pos' + 1;
      if shift >= 64 {
        return None, pos';
      }
      acc := acc + (b % 128) * weight % W64;
      if b < 128 {
        return Some(acc), pos';
      }
      Pow2Add(shift, 7);
      Pow2Values();
      shift, weight := shift + 7, weight * 128;
    }
  }

  class MethodIterator {
    const bytes: seq<byte>
    var pos: nat

    constructor (bytes: seq<byte>)
      ensures this.bytes == bytes && pos == 0
    {
      this.bytes := bytes;
      pos := 0;
    }

    /** Yields the entry at pos and moves past it, or yields nothing and stays. */
    method Advance() returns (m: Option<Method>)
      modifies this`pos
      ensures var r := NextAt(bytes, old(pos));
              if r.Some? then m == Some(r.value.desc) && pos == r.value.pos
              else m.None? && pos == old(pos)
    {
      var mid, p := TakeVarint(bytes, pos);
      if mid.None? || p >= |bytes| {
        return None;
      }
      var flags := bytes[p];
      var len, start := TakeVarint(bytes, p + 1);
      if len.None? || start + len.value > |bytes| {
        return None;
      }
      var end := start + len.value;
      var name := bytes[start..end];
      if !Utf8.Valid(name) {
        return None;
      }
      pos := end;
      return Some(Method(mid.value, flags, name));
    }
  }

  /** Exactly count entries, and they cover the area. */
  method CoveredBy(area: seq<byte>, count: nat) returns (ok: bool)
    ensures ok <==> Skip(area, 0, count) == Some(|area|)
  {
    var it := new MethodIterator(area);
    var k := 0;
    while k < count
      invariant it.bytes == area && 0 <= k <= count
      invariant Skip(area, it.pos, count - k) == Skip(area, 0, count)
    {
      var m := it.Advance();
      if m.None? {
        return false;
      }
      k := k + 1;
    }
    return it.pos == |area|;
  }

  method ParseDescriptor(s: seq<byte>) returns (r: Option<seq<byte>>)
    ensures r == Parse(s)
  {
    if s == [] || s[0] != PROTOCOL_VERSION {
      return None;
    }
    var len, pos := TakeVarint(s, 1);
    if len.None? || pos + len.value > |s| {
      return None;
    }
    var body := s[pos..pos + len.value];
    var count, inner := TakeVarint(body, 0);
    if count.None? {
      return None;
    }
    var ok := CoveredBy(body[inner..], count.value);
    return if ok then Some(body[inner..]) else None;
  }
}
