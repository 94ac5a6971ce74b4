/** The AP-side UART's clock: which of two fractional dividers feeds it and which divisor makes 115200
    baud out of it.
    Main results: for every register content the chosen divisor is the nearest integer, fits its sixteen
    bits and is within 2% (Choose), judged on the registers' fields (ChoiceOnFields); a divisor is found
    exactly when one within 2% exists and the nearest integer is not 65536 or more (DivisorDecides);
    choosing again gives the same choice (ChoiceStands). */
module ClockChoice {
  import opened Basics
  import Modular

  const FIN1: nat := 153_600_000
  const FIN2: nat := 614_400_000
  const FULL: nat := 1_843_200       // 16 * 115200
  const MAX_DIVISOR: nat := 0xFFFF
  const SUCCR_14P7456M: u32 := 125 * 0x1_0000 + 24

  /** Output of a divider whose register holds num in bits 28..16 and den in bits 12..0. */
  function DdnRate(reg: u32, fin: nat): (f: nat) {
    var num, den := reg / 0x1_0000 % 0x2000, reg % 0x2000;
    if num == 0 || den == 0 then 0 else Ratio(fin, den, 2 * num)
  }

  function Ratio(a: nat, b: nat, n: nat): (r: nat)
    requires n > 0
  {
    var p: nat := a * b;
    p / n
  }

  function Error(f: nat, d: nat): nat {
    if f >= d * FULL then f - d * FULL else d * FULL - f
  }

  /** 115200 baud within 2%. */
  predicate Close(f: nat, d: nat) {
    Error(f, d) * 50 <= f
  }

  ghost predicate Nearest(f: nat, d: nat) {
    forall k: nat :: Error(f, d) <= Error(f, k)
  }

  /** dll_for. */
  function Divisor(f: nat): Option<nat> {
    if f == 0 then None
    else
      var d := (f + FULL / 2) / FULL;
      if d == 0 || d > MAX_DIVISOR || !Close(f, d) then None else Some(d)
  }

  lemma RoundedIsNearest(f: nat)
    ensures Nearest(f, (f + FULL / 2) / FULL)
  {
    var d := (f + FULL / 2) / FULL;
    forall k: nat ensures Error(f, d) <= Error(f, k) {
      if k > d {
        assert k * FULL >= (d + 1) * FULL;
      } else if k < d {
        assert k * FULL <= (d - 1) * FULL;
      }
    }
  }

  /** A divisor is found exactly when some sixteen-bit divisor is within 2% and f is below 65535.5 times
      1843200; from there on to 65535 * 1843200 * 50 / 49, 65535 would still do but is not found. */
  lemma DivisorDecides(f: nat)
    ensures Divisor(f).Some? <==>
              (exists d :: 1 <= d <= MAX_DIVISOR && Close(f, d)) && 2 * f < (2 * MAX_DIVISOR + 1) * FULL
    ensures Divisor(f).Some? ==> var d := Divisor(f).value; 1 <= d <= MAX_DIVISOR && Nearest(f, d) && Close(f, d)
  {
    var d := (f + FULL / 2) / FULL;
    RoundedIsNearest(f);
    if Divisor(f).Some? {
      assert 1 <= d <= MAX_DIVISOR && Close(f, d);
    } else if 2 * f < (2 * MAX_DIVISOR + 1) * FULL {
      assert d <= MAX_DIVISOR;
      forall k | 1 <= k <= MAX_DIVISOR ensures !Close(f, k) {
        assert Error(f, d) <= Error(f, k);
        if d == 0 {
          assert k * FULL >= FULL;
        }
      }
    }
  }

  /** A register content for which 65535 is within 2% and no divisor is found. */
  lemma DivisorMissed()
    ensures var f := DdnRate(0x1_0000 + 394, FIN2); Close(f, MAX_DIVISOR) && Divisor(f).None?
  {
  }

  lemma Product(a: nat, b: nat, a': nat, b': nat)
    requires a <= a' && b <= b'
    ensures a * b <= a' * b'
  {
    assert a * b <= a' * b;
    assert a' * b <= a' * b';
  }

  lemma Quotient(a: nat, n: nat)
    requires n > 0
    ensures a / n <= a
  {
    var q := a / n;
    assert a == q * n + a % n;
    Product(q, 1, q, n);
  }

  /** The products and errors computed fit in 63 bits. */
  lemma NoOverflow(reg: u32, fin: nat, d: nat)
    requires fin <= FIN2 && d <= MAX_DIVISOR
    ensures fin * (reg % 0x2000) < 0x1_0000_0000_0000
    ensures Error(DdnRate(reg, fin), d) * 50 < 0x100_0000_0000_0000
  {
    var num, den := reg / 0x1_0000 % 0x2000, reg % 0x2000;
    Product(fin, den, FIN2, 0x1FFF);
    var f := DdnRate(reg, fin);
    assert f <= fin * den by {
      if num > 0 {
        Quotient(fin * den, 2 * num);
      }
    }
    assert Error(f, d) <= f || Error(f, d) <= d * FULL;
  }

  // ---- the choice ----

  datatype Regs = Regs(apbcUart0: u32, succr: u32, succr1: u32)

  datatype Choice = Choice(sel: nat, divisor: nat)

  function Rate(r: Regs, sel: nat): nat {
    if sel == 1 then DdnRate(r.succr, FIN1) else DdnRate(r.succr1, FIN2)
  }

  function Uart0Sel(r: Regs): nat {
    r.apbcUart0 / 0x10 % 8
  }

  /** The order in which the sources are tried. */
  function Preferred(r: Regs): nat {
    if Uart0Sel(r) == 2 && Divisor(Rate(r, 2)).Some? then 2
    else if Divisor(Rate(r, 1)).Some? then 1
    else 2
  }

  predicate Alive(r: Regs) {
    Divisor(Rate(r, 1)).Some? || Divisor(Rate(r, 2)).Some?
  }

  /** The registers after the choice, and the choice. */
  function Chosen(r: Regs): (Regs, Choice) {
    if Alive(r) then (r, Choice(Preferred(r), Divisor(Rate(r, Preferred(r))).value))
    else (r.(succr := SUCCR_14P7456M), Choice(1, 8))
  }

  lemma Programmed()
    ensures DdnRate(SUCCR_14P7456M, FIN1) == 14_745_600 && Divisor(14_745_600) == Some(8) && Error(14_745_600, 8) == 0
  {
  }

  ghost predicate Exact(r: Regs, c: Choice) {
    var f := Rate(r, c.sel);
    1 <= c.sel <= 2 && 1 <= c.divisor <= MAX_DIVISOR && Nearest(f, c.divisor) && Close(f, c.divisor)
  }

  /** The choice suits the registers as they are after it; they are written only when neither source can
      be used, and then the source is exactly 14745600 Hz and the error zero. */
  lemma ChosenSuits(r: Regs)
    ensures var (r', c) := Chosen(r);
            && Exact(r', c)
            && (r' != r ==> !Alive(r) && r' == r.(succr := SUCCR_14P7456M) && c == Choice(1, 8)
                            && Rate(r', 1) == 14_745_600 && Error(Rate(r', 1), 8) == 0)
            && (Alive(r) ==> r' == r)
            && (c.sel == 2 <==> Divisor(Rate(r, 2)).Some? && (Uart0Sel(r) == 2 || Divisor(Rate(r, 1)).None?))
  {
    Programmed();
    DivisorDecides(Rate(r, 1));
    DivisorDecides(Rate(r, 2));
    DivisorDecides(14_745_600);
  }

  /** Choosing again changes nothing and chooses the same. */
  lemma ChoiceStands(r: Regs)
    ensures Chosen(Chosen(r).0) == Chosen(r)
  {
    Programmed();
    var r' := Chosen(r).0;
    if !Alive(r) {
      assert Rate(r', 2) == Rate(r, 2);
    }
  }

  // ---- the same on the registers' fields ----

  function Num(reg: u32): nat {
    reg / 0x1_0000 % 0x2000
  }

  function Den(reg: u32): nat {
    reg % 0x2000
  }

  function Distance(a: nat, b: nat): nat {
    if a >= b then a - b else b - a
  }

  /** f is the divider's output in whole hertz. */
  predicate Outputs(reg: u32, fin: nat, f: nat) {
    Num(reg) != 0 && Den(reg) != 0 && 2 * Num(reg) * f <= fin * Den(reg) < 2 * Num(reg) * (f + 1)
  }

  /** Some sixteen-bit divisor makes 115200 baud of f within 2%, and f rounds to a sixteen-bit divisor. */
  ghost predicate Reaches(f: nat) {
    && (exists d: nat :: 1 <= d <= 65535 && 50 * Distance(f, d * 1_843_200) <= f)
    && 2 * f < 131_071 * 1_843_200
  }

  ghost predicate Usable(reg: u32, fin: nat) {
    exists f: nat :: Outputs(reg, fin, f) && Reaches(f)
  }

  lemma OutputIs(reg: u32, fin: nat, f: nat)
    requires Outputs(reg, fin, f)
    ensures DdnRate(reg, fin) == f
  {
    var n, x: nat := 2 * Num(reg), fin * Den(reg);
    assert f * n + (x - f * n) == x && 0 <= x - f * n < n;
    Modular.Unique(n, f, x - f * n, x / n, x % n);
  }

  lemma HasOutput(reg: u32, fin: nat)
    requires Num(reg) != 0 && Den(reg) != 0
    ensures Outputs(reg, fin, DdnRate(reg, fin))
  {
    var n, x: nat := 2 * Num(reg), fin * Den(reg);
    var q := x / n;
    assert x == q * n + x % n && n * (q + 1) == q * n + n;
  }

  lemma ReachesDecides(f: nat)
    ensures Divisor(f).Some? <==> Reaches(f)
  {
    DivisorDecides(f);
    forall d: nat ensures Close(f, d) <==> 50 * Distance(f, d * 1_843_200) <= f {
    }
    if Divisor(f).Some? {
      var d := Divisor(f).value;
      assert 1 <= d <= 65535 && 50 * Distance(f, d * 1_843_200) <= f;
    }
  }

  lemma UsableDecides(reg: u32, fin: nat)
    ensures Divisor(DdnRate(reg, fin)).Some? <==> Usable(reg, fin)
  {
    hide Outputs, Reaches, Divisor;
    if Num(reg) != 0 && Den(reg) != 0 {
      HasOutput(reg, fin);
      var f := DdnRate(reg, fin);
      ReachesDecides(f);
      forall g: nat | Outputs(reg, fin, g) ensures g == f {
        OutputIs(reg, fin, g);
      }
    } else {
      assert DdnRate(reg, fin) == 0;
      assert Divisor(0).None? by { NothingDivides(); }
      forall f: nat ensures !Outputs(reg, fin, f) {
        NoOutput(reg, fin, f);
      }
    }
  }

  lemma NothingDivides()
    ensures Divisor(0).None?
  {
  }

  lemma NoOutput(reg: u32, fin: nat, f: nat)
    requires Num(reg) == 0 || Den(reg) == 0
    ensures !Outputs(reg, fin, f)
  {
  }

  /** x in steps of n, against multiples of 1843200 of them: the divisor of the quotient is nearest to x
      itself, and within 2% up to the rounding of the one division. */
  lemma NearestBeforeRounding(x: nat, n: nat, f: nat, d: nat, k: nat)
    requires n > 0 && n * f <= x < n * (f + 1) && Divisor(f) == Some(d)
    ensures 50 * Distance(x, n * (d * FULL)) <= x + 50 * n
    ensures Distance(x, n * (d * FULL)) <= Distance(x, n * (k * FULL))
  {
    var e := d * FULL;
    assert e <= f + FULL / 2 < e + FULL;
    assert n * (f + 1) == n * f + n;
    Within(x, n, f, e);
    Nearer(x, n, f, e, k * FULL, d, k);
  }

  lemma Scaled(n: nat, a: int, b: int, c: int)
    requires a <= b + c
    ensures n * a <= n * b + n * c
  {
    Modular.Monotone(a, b + c, n);
    assert n * (b + c) == n * b + n * c;
  }

  lemma Within(x: nat, n: nat, f: nat, e: nat)
    requires n > 0 && n * f <= x < n * f + n && 50 * Distance(f, e) <= f
    ensures 50 * Distance(x, n * e) <= x + 50 * n
  {
    var off := Distance(f, e);
    Modular.Monotone(50 * off, f, n);
    assert 50 * off * n == 50 * (n * off);
    if f >= e {
      assert n * f == n * e + n * off;
    } else {
      assert n * e == n * f + n * off;
      Modular.Monotone(1, off, n);
    }
  }

  lemma Nearer(x: nat, n: nat, f: nat, e: nat, e': nat, d: nat, k: nat)
    requires n > 0 && n * f <= x < n * f + n && e <= f + FULL / 2 < e + FULL && e == d * FULL && e' == k * FULL
    ensures Distance(x, n * e) <= Distance(x, n * e')
  {
    Scaled(n, e, f, 921_600);
    Scaled(n, f, e, 921_599);
    if k > d {
      Scaled(n, e, e', -1_843_200);
    } else if k < d {
      Scaled(n, e', e, -1_843_200);
    }
  }

  /** The choice for every register content, in terms of the fields num and den of the chosen source's
      register as it is afterwards: of all divisors none brings 16 * 115200 * divisor nearer to the
      source's fin * den / (2 * num), and it is within 2% up to the rounding of one division. Source 2 is
      chosen exactly when it can be used and is selected or source 1 cannot be used; the register of
      source 1 is written exactly when neither can. */
  lemma ChoiceOnFields(r: Regs)
    ensures var (r', c) := Chosen(r);
            var reg, fin := if c.sel == 1 then r'.succr else r'.succr1, if c.sel == 1 then 153_600_000 else 614_400_000;
            var n, x := 2 * Num(reg), fin * Den(reg);
            && 1 <= c.sel <= 2 && 1 <= c.divisor <= 65535 && n != 0 && x != 0
            && 50 * Distance(x, n * (c.divisor * 1_843_200)) <= x + 50 * n
            && (forall k: nat :: Distance(x, n * (c.divisor * 1_843_200)) <= Distance(x, n * (k * 1_843_200)))
    ensures var (r', c) := Chosen(r);
            var first, second := Usable(r.succr, 153_600_000), Usable(r.succr1, 614_400_000);
            && (c.sel == 2 <==> second && (r.apbcUart0 / 0x10 % 8 == 2 || !first))
            && r' == if first || second then r else r.(succr := 125 * 0x1_0000 + 24)
  {
    hide Usable, Divisor, DdnRate;
    UsableDecides(r.succr, FIN1);
    UsableDecides(r.succr1, FIN2);
    Programmed();
    var (r', c) := Chosen(r);
    assert Divisor(Rate(r', c.sel)) == Some(c.divisor);
    ChosenNearest(if c.sel == 1 then r'.succr else r'.succr1, if c.sel == 1 then FIN1 else FIN2, c.divisor);
  }

  lemma ChosenNearest(reg: u32, fin: nat, d: nat)
    requires fin > 0 && Divisor(DdnRate(reg, fin)) == Some(d)
    ensures var n, x := 2 * Num(reg), fin * Den(reg);
            && 1 <= d <= 65535 && n != 0 && x != 0
            && 50 * Distance(x, n * (d * 1_843_200)) <= x + 50 * n
            && (forall k: nat :: Distance(x, n * (d * 1_843_200)) <= Distance(x, n * (k * 1_843_200)))
  {
    var f := DdnRate(reg, fin);
    DivisorDecides(f);
    HasOutput(reg, fin);
    var n, x: nat := 2 * Num(reg), fin * Den(reg);
    forall k: nat
      ensures 50 * Distance(x, n * (d * FULL)) <= x + 50 * n
      ensures Distance(x, n * (d * FULL)) <= Distance(x, n * (k * FULL))
    {
      NearestBeforeRounding(x, n, f, d, k);
    }
  }

  class Mmio {
    var apbcUart0: u32
    var succr: u32
    var succr1: u32

    function Abstract(): Regs
      reads this
    {
      Regs(apbcUart0, succr, succr1)
    }

    /** choose_clock. */
    method Choose() returns (c: Choice)
      modifies this`succr
      ensures (Abstract(), c) == Chosen(old(Abstract()))
      ensures Exact(Abstract(), c)
    {
      ChosenSuits(Abstract());
      var sel := apbcUart0 / 0x10 % 8;
      var d1, d2 := Divisor(DdnRate(succr, FIN1)), Divisor(DdnRate(succr1, FIN2));
      if sel == 1 {
        if d1.Some? {
          return Choice(1, d1.value);
        }
      } else if sel == 2 {
        if d2.Some? {
          return Choice(2, d2.value);
        }
      }
      if d1.Some? {
        return Choice(1, d1.value);
      }
      if d2.Some? {
        return Choice(2, d2.value);
      }
      succr := SUCCR_14P7456M;
      return Choice(1, 8);
    }
  }
}
