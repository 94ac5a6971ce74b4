/** The service descriptor: proto, desc_len, count, then one entry per method.
    Main results: parsing an encoded table gives back the table whatever bytes follow it (RoundTrip),
    and whatever parses has exactly `count` entries, which cover the entry area (ParseCovers). */
module Descriptor {
  import opened Basics
  import opened Bytes
  import Utf8

  const PROTOCOL_VERSION: byte := 1

  datatype Method = Method(mid: nat, flags: byte, name: seq<byte>)

  /** What the Rust types promise of a method: a 64-bit id and a UTF-8 name. */
  predicate MethodOk(m: Method) {
    m.mid < W64 && |m.name| < W64 && Utf8.Valid(m.name)
  }

  // ---- encoding ----

  function Entry(m: Method): (s: seq<byte>)
    ensures |s| >= 3
  {
    Leb(m.mid) + [m.flags] + Leb(|m.name|) + m.name
  }

  function Entries(ms: seq<Method>): seq<byte> {
    if ms == [] then [] else Entry(ms[0]) + Entries(ms[1..])
  }

  function Body(ms: seq<Method>): seq<byte> {
    Leb(|ms|) + Entries(ms)
  }

  function Table(ms: seq<Method>): seq<byte> {
    [PROTOCOL_VERSION] + Leb(|Body(ms)|) + Body(ms)
  }

  // ---- parsing ----

  datatype Next = Next(desc: Method, pos: nat)

  /** Methods::next at pos. */
  function NextAt(s: seq<byte>, pos: nat): (r: Option<Next>)
    ensures r.Some? ==> pos < r.value.pos <= |s|
  {
    var mid := Take(s, pos);
    if mid.None? then None
    else
      var p := mid.value.next;
      if p >= |s| then None
      else
        var len := Take(s, p + 1);
        if len.None? then None
        else
          var start, end := len.value.next, len.value.next + len.value.value;
          if end > |s| || !Utf8.Valid(s[start..end]) then None
          else Some(Next(Method(mid.value.value, s[p], s[start..end]), end))
  }

  /** Everything the iterator yields from pos on, and where it stops. */
  function Iterate(s: seq<byte>, pos: nat): (seq<Method>, nat)
    decreases |s| - pos
  {
    var r := NextAt(s, pos);
    if r.None? then ([], pos)
    else var (ms, end) := Iterate(s, r.value.pos); ([r.value.desc] + ms, end)
  }

  /** The position after count entries, if there are that many. */
  function Skip(s: seq<byte>, pos: nat, count: nat): Option<nat>
    decreases count
  {
    if count == 0 then Some(pos)
    else
      var r := NextAt(s, pos);
      if r.None? then None else Skip(s, r.value.pos, count - 1)
  }

  /** The bytes that desc_len announces. */
  function BodyOf(s: seq<byte>): Option<seq<byte>> {
    if s == [] || s[0] != PROTOCOL_VERSION then None
    else
      var len := Take(s, 1);
      if len.None? || len.value.next + len.value.value > |s| then None
      else Some(s[len.value.next..len.value.next + len.value.value])
  }

  /** The entry area of a body, if exactly count entries cover it. */
  function AreaOf(body: seq<byte>): Option<seq<byte>> {
    var count := Take(body, 0);
    if count.None? then None
    else
      var area := body[count.value.next..];
      if Skip(area, 0, count.value.value) == Some(|area|) then Some(area) else None
  }

  /** The entry area of an accepted descriptor. */
  function Parse(s: seq<byte>): Option<seq<byte>> {
    var body := BodyOf(s);
    if body.None? then None else AreaOf(body.value)
  }

  function Methods(area: seq<byte>): seq<Method> {
    Iterate(area, 0).0
  }

  // ---- round trip ----

  lemma AtPart(s: seq<byte>, pos: nat, a: seq<byte>, b: seq<byte>)
    requires At(s, pos, a + b)
    ensures At(s, pos, a) && At(s, pos + |a|, b)
  {
    assert s[pos..pos + |a|] == s[pos..pos + |a + b|][..|a|];
    assert s[pos + |a|..pos + |a + b|] == s[pos..pos + |a + b|][|a|..];
  }

  lemma EntryParts(s: seq<byte>, pos: nat, m: Method)
    requires At(s, pos, Entry(m))
    ensures var p := pos + |Leb(m.mid)|;
            var q := p + 1 + |Leb(|m.name|)|;
            && At(s, pos, Leb(m.mid)) && p < |s| && s[p] == m.flags
            && At(s, p + 1, Leb(|m.name|)) && At(s, q, m.name) && q + |m.name| == pos + |Entry(m)|
  {
    var a, b, c := Leb(m.mid), [m.flags], Leb(|m.name|);
    AtPart(s, pos, a + b + c, m.name);
    AtPart(s, pos, a + b, c);
    AtPart(s, pos, a, b);
    assert s[pos + |a|] == s[pos + |a|..pos + |a| + 1][0];
  }

  lemma EntryTakes(s: seq<byte>, pos: nat, m: Method)
    requires At(s, pos, Entry(m)) && MethodOk(m)
    ensures var p := pos + |Leb(m.mid)|;
            var q := p + 1 + |Leb(|m.name|)|;
            && p < |s| && s[p] == m.flags && Take(s, pos) == Some(Taken(m.mid, p))
            && Take(s, p + 1) == Some(Taken(|m.name|, q)) && At(s, q, m.name) && q + |m.name| == pos + |Entry(m)|
  {
    EntryParts(s, pos, m);
    TakeLeb(s, pos, m.mid);
    TakeLeb(s, pos + |Leb(m.mid)| + 1, |m.name|);
  }

  /** An entry reads back wherever it lies. */
  lemma NextEntry(s: seq<byte>, pos: nat, m: Method)
    requires At(s, pos, Entry(m)) && MethodOk(m)
    ensures NextAt(s, pos) == Some(Next(m, pos + |Entry(m)|))
  {
    var p := pos + |Leb(m.mid)|;
    EntryTakes(s, pos, m);
    NextFrom(s, pos, Taken(m.mid, p), Taken(|m.name|, p + 1 + |Leb(|m.name|)|), m.name);
  }

  lemma NextFrom(s: seq<byte>, pos: nat, mid: Taken, len: Taken, name: seq<byte>)
    requires Take(s, pos) == Some(mid) && mid.next < |s| && Take(s, mid.next + 1) == Some(len)
    requires len.value == |name| && At(s, len.next, name) && Utf8.Valid(name)
    ensures NextAt(s, pos) == Some(Next(Method(mid.value, s[mid.next], name), len.next + len.value))
  {
    assert s[len.next..len.next + len.value] == name;
  }

  lemma EndOfArea(s: seq<byte>)
    ensures Iterate(s, |s|) == ([], |s|) && Skip(s, |s|, 0) == Some(|s|)
  {
    assert Take(s, |s|).None?;
  }

  lemma IterateOne(s: seq<byte>, pos: nat, n: Next, ms: seq<Method>)
    requires NextAt(s, pos) == Some(n) && Skip(s, n.pos, |ms|) == Some(|s|) && Iterate(s, n.pos) == (ms, |s|)
    ensures Skip(s, pos, |ms| + 1) == Some(|s|) && Iterate(s, pos) == ([n.desc] + ms, |s|)
  {
  }

  lemma SplitHead(s: seq<byte>, pos: nat, a: seq<byte>, b: seq<byte>)
    requires pos <= |s| && s[pos..] == a + b
    ensures At(s, pos, a) && s[pos + |a|..] == b
  {
    assert s[pos..pos + |a|] == s[pos..][..|a|];
    assert s[pos + |a|..] == s[pos..][|a|..];
  }

  lemma {:induction false} IterateEntries(s: seq<byte>, pos: nat, ms: seq<Method>)
    requires pos <= |s| && s[pos..] == Entries(ms)
    requires forall i :: 0 <= i < |ms| ==> MethodOk(ms[i])
    ensures Skip(s, pos, |ms|) == Some(|s|) && Iterate(s, pos) == (ms, |s|)
    decreases |ms|
  {
    hide NextAt, Iterate, Skip, Entry;
    if ms == [] {
      EndOfArea(s);
    } else {
      SplitHead(s, pos, Entry(ms[0]), Entries(ms[1..]));
      NextEntry(s, pos, ms[0]);
      IterateEntries(s, pos + |Entry(ms[0])|, ms[1..]);
      IterateOne(s, pos, Next(ms[0], pos + |Entry(ms[0])|), ms[1..]);
      assert ms == [ms[0]] + ms[1..];
    }
  }

  lemma BodyReads(ms: seq<Method>)
    requires |ms| < W64
    ensures Take(Body(ms), 0) == Some(Taken(|ms|, |Leb(|ms|)|))
    ensures Body(ms)[|Leb(|ms|)|..] == Entries(ms)
  {
    var body := Body(ms);
    assert body[0..|Leb(|ms|)|] == Leb(|ms|);
    TakeLeb(body, 0, |ms|);
  }

  lemma TableReads(ms: seq<Method>, tail: seq<byte>)
    requires |Body(ms)| < W64
    ensures var s := Table(ms) + tail;
            var len := Leb(|Body(ms)|);
            && Take(s, 1) == Some(Taken(|Body(ms)|, 1 + |len|))
            && 1 + |len| + |Body(ms)| <= |s| && s[1 + |len|..1 + |len| + |Body(ms)|] == Body(ms)
  {
    var s, len := Table(ms) + tail, Leb(|Body(ms)|);
    assert s[1..1 + |len|] == len;
    TakeLeb(s, 1, |Body(ms)|);
  }

  /** For every method table and whatever follows its encoding, parse succeeds and the iterator
      yields the table. */
  lemma RoundTrip(ms: seq<Method>, tail: seq<byte>)
    requires |Body(ms)| < W64 && forall i :: 0 <= i < |ms| ==> MethodOk(ms[i])
    ensures Parse(Table(ms) + tail) == Some(Entries(ms)) && Methods(Entries(ms)) == ms
  {
    EntriesLong(ms);
    TableReads(ms, tail);
    BodyReads(ms);
    var area := Entries(ms);
    assert area[0..] == area;
    IterateEntries(area, 0, ms);
  }

  lemma {:induction false} EntriesLong(ms: seq<Method>)
    ensures |Entries(ms)| >= |ms|
  {
    if ms != [] {
      EntriesLong(ms[1..]);
    }
  }

  // ---- what is accepted ----

  lemma {:induction false} SkipIsIterate(s: seq<byte>, pos: nat, count: nat)
    requires Skip(s, pos, count) == Some(|s|)
    ensures Iterate(s, pos).1 == |s| && |Iterate(s, pos).0| == count
    decreases count
  {
    if count == 0 {
      assert Take(s, |s|).None?;
    } else {
      SkipIsIterate(s, NextAt(s, pos).value.pos, count - 1);
    }
  }

  /** Whatever parse accepts: the iterator yields exactly the announced number of entries and stops
      at the end of the area, which ends where desc_len says. */
  lemma ParseCovers(s: seq<byte>)
    requires Parse(s).Some?
    ensures var area := Parse(s).value;
            var len := Take(s, 1).value;
            var body := s[len.next..len.next + len.value];
            && s[0] == PROTOCOL_VERSION && len.next + len.value <= |s|
            && area == body[Take(body, 0).value.next..]
            && Iterate(area, 0).1 == |area|
            && |Methods(area)| == Take(body, 0).value.value
  {
    var len := Take(s, 1).value;
    var body := s[len.next..len.next + len.value];
    var count := Take(body, 0).value;
    SkipIsIterate(body[count.next..], 0, count.value);
  }

  /** Bytes beyond desc_len never matter. */
  lemma PaddingIgnored(s: seq<byte>, tail: seq<byte>)
    requires Parse(s).Some?
    ensures Parse(s + tail) == Parse(s)
  {
    TakePrefix(s, tail, 1, 0, 0);
    var len := Take(s, 1).value;
    assert (s + tail)[len.next..len.next + len.value] == s[len.next..len.next + len.value];
  }

  lemma {:induction false} TakePrefix(s: seq<byte>, tail: seq<byte>, pos: nat, v: nat, shift: nat)
    requires TakeFrom(s, pos, v, shift).Some?
    ensures TakeFrom(s + tail, pos, v, shift) == TakeFrom(s, pos, v, shift)
    decreases |s| - pos
  {
    if s[pos] >= 128 {
      TakePrefix(s, tail, pos + 1, v + (s[pos] % 128) * Pow2(shift) % W64, shift + 7);
    }
  }
}
