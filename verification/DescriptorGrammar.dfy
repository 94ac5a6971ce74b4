/** What parse accepts, as a grammar: numbers in groups of seven bits, in any length up to ten groups, and
    entries one behind the other.
    Main result: for every byte string and every method table, parse accepts the string and the iterator
    yields the table exactly when the string describes the table (ParseDecides). */
module DescriptorGrammar {
  import opened Basics
  import opened Bytes
  import opened Descriptor
  import Modular
  import Utf8

  // ---- numbers ----

  function Groups(b: seq<byte>): nat {
    if b == [] then 0 else b[0] % 128 + 128 * Groups(b[1..])
  }

  /** All bytes of s[pos..n] but the last have the eighth bit set, and there are at most max. */
  predicate Span(s: seq<byte>, pos: nat, n: nat, max: nat) {
    pos < n <= |s| && n - pos <= max && (forall i :: pos <= i < n - 1 ==> s[i] >= 128) && s[n - 1] < 128
  }

  /** The bytes are one number: at most ten groups, of which 64 bits count. */
  predicate Spells(b: seq<byte>, v: nat) {
    Span(b, 0, |b|, 10) && v == Groups(b) % W64
  }

  lemma Congruent(a: nat, b: nat, c: nat)
    requires a % W64 == b % W64
    ensures (a + c) % W64 == (b + c) % W64
  {
  }

  /** One group more, the bits beyond the sixty-fourth lost. */
  lemma GroupAdds(g: nat, k: nat, v: nat)
    requires g < 128 && k <= 9 && v < Pow2(7 * k)
    ensures var v' := v + g * Pow2(7 * k) % W64;
            v' < W64 && v' < Pow2(7 * (k + 1)) && v' == (v + g * Pow2(7 * k)) % W64
  {
    GroupFits(g, 7 * k, v);
    assert 7 * (k + 1) == 7 * k + 7;
    var x := g * Pow2(7 * k);
    assert v + x == v + x % W64 + x / W64 * W64;
    Modular.Remainder(v + x, W64, x / W64, v + x % W64);
  }

  lemma GroupsFirst(s: seq<byte>, pos: nat, n: nat)
    requires pos < n <= |s|
    ensures Groups(s[pos..n]) == s[pos] % 128 + 128 * Groups(s[pos + 1..n])
  {
    assert s[pos..n][1..] == s[pos + 1..n];
  }

  /** Groups behind the first are worth 128 times as much. */
  lemma Shifted(v: nat, g: nat, rest: nat, p: nat)
    ensures (v + (g + 128 * rest) * p) % W64 == ((v + g * p) % W64 + rest * (128 * p)) % W64
  {
    Modular.Assoc(rest, 128, p);
    assert (g + 128 * rest) * p == g * p + rest * (128 * p);
    Congruent(v + g * p, (v + g * p) % W64, rest * (128 * p));
  }

  lemma {:induction false} TakeFromDecides(s: seq<byte>, pos: nat, v: nat, k: nat, n: nat)
    requires k <= 9 && v < Pow2(7 * k) && v < W64
    ensures var r := TakeFrom(s, pos, v, 7 * k);
            && (r.Some? && r.value.next == n <==> Span(s, pos, n, 10 - k))
            && (Span(s, pos, n, 10 - k) ==> r.value.value == (v + Groups(s[pos..n]) * Pow2(7 * k)) % W64)
    decreases |s| - pos
  {
    if pos < |s| {
      var g, p := s[pos] % 128, Pow2(7 * k);
      var v' := v + g * p % W64;
      GroupAdds(g, k, v);
      if s[pos] < 128 {
        if n == pos + 1 {
          assert s[pos + 1..n] == [];
          GroupsFirst(s, pos, n);
        }
      } else if k < 9 {
        SevenMore(k);
        assert 7 * (k + 1) == 7 * k + 7;
        TakeFromDecides(s, pos + 1, v', k + 1, n);
        assert Span(s, pos, n, 10 - k) <==> Span(s, pos + 1, n, 9 - k);
        if Span(s, pos, n, 10 - k) {
          GroupsFirst(s, pos, n);
          Shifted(v, g, Groups(s[pos + 1..n]), p);
        }
      }
    }
  }

  lemma SpanOfPart(s: seq<byte>, pos: nat, n: nat)
    requires pos < n <= |s|
    ensures Span(s, pos, n, 10) <==> Span(s[pos..n], 0, n - pos, 10)
  {
    var b := s[pos..n];
    assert forall i :: pos <= i < n ==> s[i] == b[i - pos];
    assert forall i :: 0 <= i < n - pos ==> b[i] == s[i + pos];
  }

  /** A number is read exactly when the bytes up to the new position are one, and it is that number. */
  lemma TakeDecides(s: seq<byte>, pos: nat, v: nat, n: nat)
    ensures Take(s, pos) == Some(Taken(v, n)) <==> pos < n <= |s| && Spells(s[pos..n], v)
  {
    TakeFromDecides(s, pos, 0, 0, n);
    if pos < n <= |s| {
      SpanOfPart(s, pos, n);
    }
  }

  // ---- entries ----

  /** The entry's number, flags, length and name, the last two from p + 1 and q on. */
  predicate Parts(e: seq<byte>, m: Method, p: nat, q: nat) {
    && p + 1 < q <= |e| && Spells(e[..p], m.mid) && e[p] == m.flags
    && Spells(e[p + 1..q], |m.name|) && e[q..] == m.name && Utf8.Valid(m.name)
  }

  ghost predicate EntrySpelled(e: seq<byte>, m: Method) {
    exists p: nat, q: nat :: Parts(e, m, p, q)
  }

  lemma NextReads(s: seq<byte>, pos: nat, m: Method, n: nat)
    requires NextAt(s, pos) == Some(Next(m, n))
    ensures pos < n <= |s| && EntrySpelled(s[pos..n], m)
  {
    hide Take, Spells, Utf8.Valid;
    var e, mid := s[pos..n], Take(s, pos).value;
    var len := Take(s, mid.next + 1).value;
    var p, q := mid.next - pos, len.next - pos;
    TakeDecides(s, pos, mid.value, mid.next);
    TakeDecides(s, mid.next + 1, len.value, len.next);
    assert e[..p] == s[pos..mid.next] && e[p + 1..q] == s[mid.next + 1..len.next] && e[q..] == s[len.next..n];
    assert Parts(e, m, p, q);
  }

  lemma NextOf(s: seq<byte>, pos: nat, m: Method, n: nat)
    requires pos < n <= |s| && EntrySpelled(s[pos..n], m)
    ensures NextAt(s, pos) == Some(Next(m, n))
  {
    hide NextAt, Take, Spells, Utf8.Valid;
    var p: nat, q: nat :| Parts(s[pos..n], m, p, q);
    EntryTaken(s, pos, m, n, p, q);
    NextFrom(s, pos, Taken(m.mid, pos + p), Taken(|m.name|, pos + q), m.name);
  }

  lemma EntryTaken(s: seq<byte>, pos: nat, m: Method, n: nat, p: nat, q: nat)
    requires pos < n <= |s| && Parts(s[pos..n], m, p, q)
    ensures pos + p < |s| && s[pos + p] == m.flags && Take(s, pos) == Some(Taken(m.mid, pos + p))
    ensures Take(s, pos + p + 1) == Some(Taken(|m.name|, pos + q)) && At(s, pos + q, m.name) && pos + q + |m.name| == n
  {
    hide Take, Spells, Utf8.Valid;
    var e := s[pos..n];
    assert e[..p] == s[pos..pos + p] && e[p + 1..q] == s[pos + p + 1..pos + q] && e[q..] == s[pos + q..n];
    assert s[pos + p] == e[p];
    TakeDecides(s, pos, m.mid, pos + p);
    TakeDecides(s, pos + p + 1, |m.name|, pos + q);
    assert 0 < p && p + 1 < q by { SpellsSome(e[..p], m.mid); }
  }

  lemma SpellsSome(b: seq<byte>, v: nat)
    requires Spells(b, v)
    ensures b != []
  {
  }

  // ---- the entry area ----

  ghost predicate Spelled(area: seq<byte>, ms: seq<Method>)
    decreases |ms|
  {
    if ms == [] then area == []
    else exists k: nat :: 0 < k <= |area| && EntrySpelled(area[..k], ms[0]) && Spelled(area[k..], ms[1..])
  }

  lemma {:induction false} SpelledIterates(s: seq<byte>, pos: nat, ms: seq<Method>)
    requires pos <= |s| && Spelled(s[pos..], ms)
    ensures Skip(s, pos, |ms|) == Some(|s|) && Iterate(s, pos) == (ms, |s|)
    decreases |ms|
  {
    hide NextAt, Iterate, Skip, EntrySpelled;
    if ms == [] {
      EndOfArea(s);
    } else {
      var area := s[pos..];
      var k: nat :| 0 < k <= |area| && EntrySpelled(area[..k], ms[0]) && Spelled(area[k..], ms[1..]);
      assert area[..k] == s[pos..pos + k] && area[k..] == s[pos + k..];
      NextOf(s, pos, ms[0], pos + k);
      SpelledIterates(s, pos + k, ms[1..]);
      IterateOne(s, pos, Next(ms[0], pos + k), ms[1..]);
      assert ms == [ms[0]] + ms[1..];
    }
  }

  lemma {:induction false} IteratesSpelled(s: seq<byte>, pos: nat, count: nat)
    requires pos <= |s| && Skip(s, pos, count) == Some(|s|)
    ensures Spelled(s[pos..], Iterate(s, pos).0) && |Iterate(s, pos).0| == count
    decreases count
  {
    hide NextAt, EntrySpelled;
    if count == 0 {
      EndOfArea(s);
    } else {
      var area, next := s[pos..], NextAt(s, pos).value;
      var ms := Iterate(s, pos).0;
      var k := next.pos - pos;
      NextReads(s, pos, next.desc, next.pos);
      IteratesSpelled(s, next.pos, count - 1);
      assert ms[1..] == Iterate(s, next.pos).0;
      assert area[..k] == s[pos..next.pos] && area[k..] == s[next.pos..];
      assert 0 < k <= |area| && EntrySpelled(area[..k], ms[0]) && Spelled(area[k..], ms[1..]);
    }
  }

  // ---- the whole ----

  /** Version 1, the length of the body, the number of entries, and the entries; e is where they end. */
  ghost predicate Layout(s: seq<byte>, ms: seq<Method>, p: nat, q: nat, e: nat) {
    && 1 < p < q <= e <= |s| && s[0] == 1
    && Spells(s[1..p], e - p) && Spells(s[p..q], |ms|) && Spelled(s[q..e], ms)
  }

  ghost predicate Describes(s: seq<byte>, ms: seq<Method>) {
    exists p: nat, q: nat, e: nat :: Layout(s, ms, p, q, e)
  }

  lemma DescribedParses(s: seq<byte>, ms: seq<Method>)
    requires Describes(s, ms)
    ensures Parse(s).Some? && Methods(Parse(s).value) == ms
  {
    hide Spelled, Skip, Iterate;
    var p: nat, q: nat, e: nat :| Layout(s, ms, p, q, e);
    var body := s[p..e];
    TakeDecides(s, 1, e - p, p);
    assert BodyOf(s) == Some(body);
    assert body[0..q - p] == s[p..q] && body[q - p..] == s[q..e];
    TakeDecides(body, 0, |ms|, q - p);
    var area := body[q - p..];
    assert area[0..] == area;
    SpelledIterates(area, 0, ms);
  }

  lemma ParsedDescribes(s: seq<byte>)
    requires Parse(s).Some?
    ensures Describes(s, Methods(Parse(s).value))
  {
    hide Spelled, Skip, Iterate;
    var len := Take(s, 1).value;
    var p, e := len.next, len.next + len.value;
    var body := s[p..e];
    var count := Take(body, 0).value;
    var q := p + count.next;
    TakeDecides(s, 1, len.value, p);
    TakeDecides(body, 0, count.value, count.next);
    var area := body[count.next..];
    IteratesSpelled(area, 0, count.value);
    assert area[0..] == area;
    assert body[0..count.next] == s[p..q] && area == s[q..e];
    assert Layout(s, Methods(area), p, q, e);
  }

  /** parse accepts a byte string and the iterator then yields the table exactly when the string describes
      the table, whatever bytes follow. */
  lemma ParseDecides(s: seq<byte>, ms: seq<Method>)
    ensures Parse(s).Some? && Methods(Parse(s).value) == ms <==> Describes(s, ms)
  {
    if Parse(s).Some? {
      ParsedDescribes(s);
    }
    if Describes(s, ms) {
      DescribedParses(s, ms);
    }
  }
}
