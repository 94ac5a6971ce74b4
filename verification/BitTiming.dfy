/** The soft UART's bit clock: deadlines advanced by 17 or 18 ticks a bit, and the guarded write of
    the compare register. Ticks are counted modulo 2^32. */
module BitTiming {
  import opened Basics
  import Modular

  const TICK_HZ: nat := 2_000_000
  const BAUD: nat := 115_200

  /** One bit further: (deadline, remainder). */
  function StepBit(dl: u32, acc: nat): (u32, nat) {
    var acc2 := acc + 41_600;
    if acc2 >= BAUD then ((dl + 18) % W32, acc2 - BAUD) else ((dl + 17) % W32, acc2)
  }

  /** What is written to the compare register, the counter reading now. */
  function Guarded(dl: u32, now: u32): u32 {
    var ahead := (dl - now) % W32;
    if ahead < 2 || ahead > 0x8000_0000 then (now + 2) % W32 else dl
  }

  /** n bits after t0, counted exactly and rounded down to a tick. */
  function IdealDeadline(t0: u32, n: nat): u32 {
    (t0 + n * TICK_HZ / BAUD) % W32
  }

  function IdealRemainder(n: nat): nat {
    (41_600 * n) % BAUD
  }

  /** n repetitions of StepBit from (t0, 0). */
  function Steps(t0: u32, n: nat): (u32, nat) {
    if n == 0 then (t0, 0) else var (dl, acc) := Steps(t0, n - 1); StepBit(dl, acc)
  }

  /** Quotient and remainder of n * TICK_HZ by BAUD, from those of 41600 * n. */
  lemma Whole(n: nat, q: nat, r: nat)
    requires 41_600 * n == BAUD * q + r && r < BAUD
    ensures n * TICK_HZ / BAUD == 17 * n + q && IdealRemainder(n) == r
  {
    var total := n * TICK_HZ;
    Modular.Unique(BAUD, total / BAUD, total % BAUD, 17 * n + q, r);
    Modular.Unique(BAUD, (41_600 * n) / BAUD, (41_600 * n) % BAUD, q, r);
  }

  lemma Carry(x: nat, d: nat)
    ensures (x % W32 + d) % W32 == (x + d) % W32
  {
    var y := x % W32 + d;
    Modular.Remainder(x + d, W32, x / W32 + y / W32, y % W32);
  }

  lemma OneBitFurther(t0: u32, n: nat)
    ensures StepBit(IdealDeadline(t0, n), IdealRemainder(n))
         == (IdealDeadline(t0, n + 1), IdealRemainder(n + 1))
  {
    var q, r := (41_600 * n) / BAUD, (41_600 * n) % BAUD;
    Whole(n, q, r);
    var up := r + 41_600 >= BAUD;
    var q', r' := if up then q + 1 else q, if up then r + 41_600 - BAUD else r + 41_600;
    Whole(n + 1, q', r');
    Carry(t0 + 17 * n + q, if up then 18 else 17);
  }

  /** The stored deadline is exact for every n: the fraction is carried, never lost. */
  lemma {:induction false} NoDrift(t0: u32, n: nat)
    ensures Steps(t0, n) == (IdealDeadline(t0, n), IdealRemainder(n))
  {
    if n > 0 {
      NoDrift(t0, n - 1);
      OneBitFurther(t0, n - 1);
    }
  }

  /** In units of 1/BAUD tick the deadline lies within one tick before the true bit edge. */
  lemma ErrorBelowOneTick(n: nat)
    ensures 0 <= n * TICK_HZ - BAUD * (n * TICK_HZ / BAUD) < BAUD
    ensures n * TICK_HZ - BAUD * (n * TICK_HZ / BAUD) == IdealRemainder(n)
  {
    Whole(n, (41_600 * n) / BAUD, (41_600 * n) % BAUD);
  }

  /** The programmed compare value is always far enough ahead to fire and near enough not to be taken for
      the past; it is the deadline itself exactly when that already holds of it, and otherwise two ticks
      ahead. */
  lemma GuardAhead(dl: u32, now: u32)
    ensures 2 <= (Guarded(dl, now) - now) % W32 <= 0x8000_0000
    ensures Guarded(dl, now) == dl <==> 2 <= (dl - now) % W32 <= 0x8000_0000
    ensures Guarded(dl, now) != dl ==> (Guarded(dl, now) - now) % W32 == 2
  {
  }
}
