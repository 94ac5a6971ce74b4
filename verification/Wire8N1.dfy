/** Asynchronous serial framing, 8 data bits, no parity, one stop bit: what a byte looks like on the
    line, and a receiver that recovers bytes from the line one level per bit time. */
module Wire8N1 {
  import opened Basics
  import Modular

  /** Bit i of b: shift right by i, keep the lowest bit. */
  predicate Bit(b: nat, i: nat) {
    (b / Pow2(i)) % 2 == 1
  }

  /** The n low bits of b, least significant first. */
  function Bits(b: nat, n: nat): (bits: seq<bool>)
    ensures |bits| == n
  {
    if n == 0 then [] else [b % 2 == 1] + Bits(b / 2, n - 1)
  }

  function Value(bits: seq<bool>): (v: nat)
    ensures v < Pow2(|bits|)
  {
    if bits == [] then 0 else (if bits[0] then 1 else 0) + 2 * Value(bits[1..])
  }

  lemma {:induction false} BitsAreShifts(b: nat, n: nat, i: nat)
    requires i < n
    ensures Bits(b, n)[i] <==> Bit(b, i)
  {
    if i > 0 {
      BitsAreShifts(b / 2, n - 1, i - 1);
      Modular.DivideTwice(b, 2, Pow2(i - 1));
    }
  }

  lemma {:induction false} ValueOfBits(b: nat, n: nat)
    requires b < Pow2(n)
    ensures Value(Bits(b, n)) == b
  {
    if n > 0 {
      ValueOfBits(b / 2, n - 1);
      assert Bits(b, n)[1..] == Bits(b / 2, n - 1);
    }
  }

  /** Start bit low, data bits, stop bit high. */
  function Frame(b: byte): (f: seq<bool>)
    ensures |f| == 10
  {
    [false] + Bits(b, 8) + [true]
  }

  lemma FrameLevels(b: byte, k: nat)
    requires k < 10
    ensures Frame(b)[..k + 1] == Frame(b)[..k] + [Frame(b)[k]]
    ensures Frame(b)[k] == if k == 0 then false else if k == 9 then true else Bit(b, k - 1)
  {
    if 1 <= k <= 8 {
      BitsAreShifts(b, 8, k - 1);
    }
  }

  /** The byte carried by a frame's eight data bits. */
  function ByteOf(f: seq<bool>): byte
    requires |f| == 10
  {
    Value(f[1..9]) % 256
  }

  lemma ByteOfFrame(b: byte)
    ensures ByteOf(Frame(b)) == b
  {
    assert Frame(b)[1..9] == Bits(b, 8);
    assert Pow2(8) == 256;
    ValueOfBits(b, 8);
  }

  /** What a receiver has made of the line so far: the bytes, the beginning of an unfinished frame,
      and whether every stop bit was high. */
  datatype Reception = Reception(bytes: seq<byte>, pending: seq<bool>, ok: bool)

  /** Wait while the line is high; a low level starts a frame of ten. */
  function Receive(line: seq<bool>): Reception {
    if line == [] then Reception([], [], true)
    else if line[0] then Receive(line[1..])
    else if |line| < 10 then Reception([], line, true)
    else if !line[9] then Reception([], [], false)
    else var rest := Receive(line[10..]); rest.(bytes := [ByteOf(line[..10])] + rest.bytes)
  }

  /** The line is between frames. */
  predicate Clean(line: seq<bool>) {
    Receive(line).ok && Receive(line).pending == []
  }

  lemma {:induction false} ReceiveAppend(a: seq<bool>, b: seq<bool>)
    requires Clean(a)
    ensures Receive(a + b) == Receive(b).(bytes := Receive(a).bytes + Receive(b).bytes)
  {
    if a == [] {
      assert a + b == b;
    } else if a[0] {
      assert (a + b)[1..] == a[1..] + b;
      ReceiveAppend(a[1..], b);
    } else {
      assert (a + b)[10..] == a[10..] + b;
      assert (a + b)[..10] == a[..10];
      ReceiveAppend(a[10..], b);
    }
  }

  /** After a clean line, part of a frame is pending, and the whole of it is its byte. */
  lemma ReceiveFrame(a: seq<bool>, b: byte, k: nat)
    requires Clean(a) && k <= 10
    ensures var r := Receive(a + Frame(b)[..k]);
            r == if k == 10 then Reception(Receive(a).bytes + [b], [], true)
                 else Reception(Receive(a).bytes, Frame(b)[..k], true)
  {
    var f := Frame(b)[..k];
    ReceiveAppend(a, f);
    if k == 10 {
      ByteOfFrame(b);
      assert f == Frame(b) && f[..10] == Frame(b);
      assert Receive(f[10..]) == Reception([], [], true);
    } else if k > 0 {
      assert !f[0];
    }
  }

  lemma ReceiveIdle(a: seq<bool>)
    requires Clean(a)
    ensures Clean(a + [true]) && Receive(a + [true]).bytes == Receive(a).bytes
  {
    ReceiveAppend(a, [true]);
    assert [true][1..] == [];
    assert Receive(a).bytes + [] == Receive(a).bytes;
  }
}
