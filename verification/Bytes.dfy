/** Bytes, powers of two, and the two byte encodings of numbers the wire formats use. */
module Bytes {
  import opened Basics
  import Modular

  lemma {:induction false} Pow2Add(i: nat, j: nat)
    ensures Pow2(i + j) == Pow2(i) * Pow2(j)
  {
    if j > 0 {
      Pow2Add(i, j - 1);
      Modular.Assoc(Pow2(i), 2, Pow2(j - 1));
      Modular.Assoc(2, Pow2(i), Pow2(j - 1));
    }
  }

  lemma Pow2Values()
    ensures Pow2(7) == 128 && Pow2(8) == 256 && Pow2(64) == W64
  {
    assert Pow2(4) == 16;
    Pow2Add(4, 4);
    assert Pow2(8) == 2 * Pow2(7);
    Pow2Add(8, 8);
    Pow2Add(16, 16);
    Pow2Add(32, 32);
  }

  lemma {:induction false} Pow2Below(i: nat, j: nat)
    requires i <= j
    ensures Pow2(i) <= Pow2(j)
  {
    if i < j {
      Pow2Below(i, j - 1);
    }
  }

  // ---- little-endian numbers of fixed width ----

  function Le(v: nat, width: nat): (s: seq<byte>)
    ensures |s| == width
  {
    if width == 0 then [] else [v % 256] + Le(v / 256, width - 1)
  }

  function FromLe(s: seq<byte>): nat {
    if s == [] then 0 else s[0] + 256 * FromLe(s[1..])
  }

  lemma {:induction false} LeRoundTrip(v: nat, width: nat)
    requires v < Pow2(8 * width)
    ensures FromLe(Le(v, width)) == v
  {
    if width > 0 {
      assert 8 * width == 8 * (width - 1) + 8;
      Pow2Add(8 * (width - 1), 8);
      Pow2Values();
      LeRoundTrip(v / 256, width - 1);
      assert Le(v, width)[1..] == Le(v / 256, width - 1);
    }
  }

  /** Byte i of a fixed-width number, lowest first. */
  lemma {:induction false} LeByte(v: nat, width: nat, i: nat)
    requires i < width
    ensures Le(v, width)[i] == v / Pow2(8 * i) % 256
  {
    if i > 0 {
      LeByte(v / 256, width - 1, i - 1);
      assert 8 * i == 8 * (i - 1) + 8;
      Pow2Add(8 * (i - 1), 8);
      Pow2Values();
      Modular.DivideTwice(v, 256, Pow2(8 * (i - 1)));
    }
  }

  // ---- LEB128 (section 7.6 of DWARF Version 5) ----

  function Leb(v: nat): (s: seq<byte>)
    ensures |s| >= 1
  {
    if v < 128 then [v] else [v % 128 + 128] + Leb(v / 128)
  }

  /** The encoding itself: group i of seven bits, lowest first, with the eighth bit set on all groups but the
      last, and no more groups than the number needs. */
  lemma {:induction false} LebByte(v: nat, i: nat)
    requires i < |Leb(v)|
    ensures Leb(v)[i] == v / Pow2(7 * i) % 128 + if i < |Leb(v)| - 1 then 128 else 0
    ensures v < Pow2(7 * |Leb(v)|) && (i > 0 ==> v >= Pow2(7 * i))
    decreases v
  {
    var n := v / 128;
    if v < 128 {
      Pow2Values();
    } else if i == 0 {
      LebByte(n, 0);
      SevenMore(|Leb(n)|);
    } else {
      LebByte(n, i - 1);
      SevenMore(|Leb(n)|);
      SevenMore(i - 1);
      Modular.DivideTwice(v, 128, Pow2(7 * (i - 1)));
    }
  }

  lemma SevenMore(i: nat)
    ensures Pow2(7 * (i + 1)) == 128 * Pow2(7 * i)
  {
    assert 7 * (i + 1) == 7 * i + 7;
    NextShift(7 * i);
  }

  /** A number read, and the position after it. */
  datatype Taken = Taken(value: nat, next: nat)

  /** take_varint from inside its loop: groups so far in v, the next one to be shifted by shift. The
      eleventh group is refused; bits of the tenth beyond the sixty-fourth are shifted out. */
  function TakeFrom(s: seq<byte>, pos: nat, v: nat, shift: nat): (r: Option<Taken>)
    ensures r.Some? ==> pos < r.value.next <= |s|
    decreases |s| - pos
  {
    if pos >= |s| || shift >= 64 then None
    else
      var b := s[pos];
      var v' := v + (b % 128) * Pow2(shift) % W64;
      if b < 128 then Some(Taken(v', pos + 1)) else TakeFrom(s, pos + 1, v', shift + 7)
  }

  function Take(s: seq<byte>, pos: nat): (r: Option<Taken>)
    ensures r.Some? ==> pos < r.value.next <= |s|
  {
    TakeFrom(s, pos, 0, 0)
  }

  /** The bytes at pos are those of t. */
  predicate At(s: seq<byte>, pos: nat, t: seq<byte>) {
    pos + |t| <= |s| && s[pos..pos + |t|] == t
  }

  /** One group of n, worth p, taken off and added to v; the rest of n is worth 128 * p. */
  lemma Group(n: nat, p: nat, v: nat)
    requires 0 < p && v < p && v + n * p < W64
    ensures (n % 128) * p % W64 == (n % 128) * p
    ensures n < 128 ==> n % 128 == n
    ensures v + (n % 128) * p < 128 * p
    ensures (v + (n % 128) * p) + (n / 128) * (128 * p) == v + n * p
    ensures n >= 128 ==> 128 * p < W64
  {
    var m, g := n / 128, n % 128;
    Modular.Assoc(m, 128, p);
    assert n * p == g * p + m * (128 * p);
    Modular.Monotone(g + 1, 128, p);
    assert (g + 1) * p == g * p + p;
    assert g * p >= 0 && m * (128 * p) >= 0;
    if n >= 128 {
      Modular.Grow(m, 128 * p);
    }
  }

  lemma LebTail(s: seq<byte>, pos: nat, n: nat)
    requires At(s, pos, Leb(n))
    ensures s[pos] == Leb(n)[0]
    ensures n >= 128 ==> At(s, pos + 1, Leb(n / 128))
  {
    assert s[pos] == s[pos..pos + |Leb(n)|][0];
    if n >= 128 {
      assert s[pos + 1..pos + |Leb(n)|] == s[pos..pos + |Leb(n)|][1..] == Leb(n)[1..] == Leb(n / 128);
    }
  }

  lemma {:induction false} TakeLebFrom(s: seq<byte>, pos: nat, n: nat, v: nat, shift: nat)
    requires At(s, pos, Leb(n)) && shift < 64 && v < Pow2(shift) && v + n * Pow2(shift) < W64
    ensures TakeFrom(s, pos, v, shift) == Some(Taken(v + n * Pow2(shift), pos + |Leb(n)|))
    decreases n
  {
    var p := Pow2(shift);
    LebTail(s, pos, n);
    Group(n, p, v);
    if n >= 128 {
      NextShift(shift);
      TakeLebFrom(s, pos + 1, n / 128, v + (n % 128) * p, shift + 7);
    }
  }

  lemma NextShift(shift: nat)
    ensures Pow2(shift + 7) == 128 * Pow2(shift)
    ensures 128 * Pow2(shift) < W64 ==> shift + 7 < 64
  {
    Pow2Add(shift, 7);
    Pow2Values();
    if shift + 7 >= 64 {
      Pow2Below(64, shift + 7);
    }
  }

  /** Reading back what was written, wherever it lies and whatever surrounds it. */
  lemma TakeLeb(s: seq<byte>, pos: nat, n: nat)
    requires At(s, pos, Leb(n)) && n < W64
    ensures Take(s, pos) == Some(Taken(n, pos + |Leb(n)|))
  {
    TakeLebFrom(s, pos, n, 0, 0);
  }

  /** Whatever is read fits in 64 bits. */
  lemma {:induction false} TakeFromIsU64(s: seq<byte>, pos: nat, v: nat, shift: nat)
    requires v < Pow2(shift) && v < W64
    ensures TakeFrom(s, pos, v, shift).Some? ==> TakeFrom(s, pos, v, shift).value.value < W64
    decreases |s| - pos
  {
    if pos < |s| && shift < 64 {
      GroupFits(s[pos] % 128, shift, v);
      if s[pos] >= 128 {
        TakeFromIsU64(s, pos + 1, v + (s[pos] % 128) * Pow2(shift) % W64, shift + 7);
      }
    }
  }

  /** A truncated group does not overlap the bits below it, nor leave the 64 bits. */
  lemma GroupFits(g: nat, shift: nat, v: nat)
    requires g < 128 && shift < 64 && v < Pow2(shift)
    ensures v + g * Pow2(shift) % W64 < W64
    ensures v + g * Pow2(shift) % W64 < Pow2(shift + 7)
  {
    var p := Pow2(shift);
    Pow2Add(shift, 64 - shift);
    Pow2Values();
    Truncate(g, p, Pow2(64 - shift));
    NextShift(shift);
    Modular.Monotone(g + 1, 128, p);
    assert (g + 1) * p == g * p + p;
  }

  lemma Truncate(g: nat, p: nat, c: nat)
    requires 0 < p && 0 < c && p * c == W64
    ensures g * p % W64 + p <= W64 && g * p % W64 <= g * p
  {
    var q, r := g / c, g % c;
    assert g == q * c + r;
    assert g * p == q * (c * p) + r * p by { Modular.Assoc(q, c, p); }
    assert (r + 1) * p <= c * p by { Modular.Monotone(r + 1, c, p); }
    assert (r + 1) * p == r * p + p;
    Modular.Remainder(g * p, W64, q, r * p);
  }
}
