/** The chassis protocol's frames AA 55 cmd len payload xor and the resynchronising parser over a
    32-byte buffer.
    Main results: parsing does not depend on how the stream was cut into chunks (ChunkingIrrelevant),
    a frame is recovered from behind any noise without a header (Recovered), built frames parse back
    exactly up to 12 payload bytes (BuildParses), the last byte of a built frame is the parity of each bit
    and of a received frame decides its acceptance (ChecksumIsParity, AcceptedDecides), and what is
    returned is a well-formed slice of the input while at most 16 bytes stay behind (ParseSound). */
module FrameParser {
  import opened Basics
  import Wire8N1

  const H1: byte := 0xAA
  const H2: byte := 0x55
  const RX_BUF: nat := 32
  const MAX_PAYLOAD: nat := 12

  /** Bitwise exclusive or of the n low bits. */
  function Xor(a: nat, b: nat, n: nat): (x: nat)
    ensures x < Pow2(n)
  {
    if n == 0 then 0 else (if a % 2 == b % 2 then 0 else 1) + 2 * Xor(a / 2, b / 2, n - 1)
  }

  function XorByte(a: byte, b: byte): byte {
    assert Pow2(8) == 256;
    Xor(a, b, 8)
  }

  function XorAll(seed: byte, s: seq<byte>): byte
    decreases |s|
  {
    if s == [] then seed else XorAll(XorByte(seed, s[0]), s[1..])
  }

  datatype Frame = Frame(cmd: byte, payload: seq<byte>)

  /** A parse: the frame found, if any, and the bytes left in the buffer. */
  datatype Parsed = Parsed(frame: Option<Frame>, rest: seq<byte>)

  /** The first byte cannot begin a frame. */
  predicate NoHeader(s: seq<byte>) {
    s != [] && !(s[0] == H1 && (|s| < 2 || s[1] == H2))
  }

  /** Length in all of the frame whose header starts s. */
  function FrameLen(s: seq<byte>): nat
    requires |s| >= 5
  {
    5 + (s[3] as nat)
  }

  predicate ChecksumOk(s: seq<byte>)
    requires |s| >= 5 && |s| >= FrameLen(s)
  {
    XorAll(XorByte(s[2], s[3]), s[4..4 + s[3]]) == s[4 + s[3]]
  }

  function Parse(s: seq<byte>): Parsed {
    if s == [] then Parsed(None, [])
    else if NoHeader(s) then Parse(s[1..])
    else if |s| < 5 then Parsed(None, s)
    else if s[3] > MAX_PAYLOAD then Parse(s[1..])
    else if |s| < FrameLen(s) then Parsed(None, s)
    else if !ChecksumOk(s) then Parse(s[1..])
    else Parsed(Some(Frame(s[2], s[4..4 + s[3]])), s[FrameLen(s)..])
  }

  function Build(cmd: byte, payload: seq<byte>): seq<byte> {
    [H1, H2, cmd, |payload| % 256] + payload + [XorAll(XorByte(cmd, |payload| % 256), payload)]
  }

  // ---- the checksum, bit by bit ----

  /** How many bytes have bit i set. */
  function Ones(s: seq<byte>, i: nat): nat {
    if s == [] then 0 else (if Wire8N1.Bit(s[0], i) then 1 else 0) + Ones(s[1..], i)
  }

  /** Bit i of chk is the parity of the bytes' bits i. */
  ghost predicate Parity(chk: byte, s: seq<byte>) {
    forall i: nat :: i < 8 ==> (Wire8N1.Bit(chk, i) <==> Ones(s, i) % 2 == 1)
  }

  lemma {:induction false} XorBits(a: nat, b: nat, n: nat, i: nat)
    requires i < n
    ensures Wire8N1.Bits(Xor(a, b, n), n)[i] <==> Wire8N1.Bits(a, n)[i] != Wire8N1.Bits(b, n)[i]
  {
    var x := Xor(a / 2, b / 2, n - 1);
    assert Xor(a, b, n) / 2 == x && Xor(a, b, n) % 2 == if a % 2 == b % 2 then 0 else 1;
    if i > 0 {
      XorBits(a / 2, b / 2, n - 1, i - 1);
    }
  }

  lemma XorBit(a: byte, b: byte, i: nat)
    requires i < 8
    ensures Wire8N1.Bit(XorByte(a, b), i) <==> Wire8N1.Bit(a, i) != Wire8N1.Bit(b, i)
  {
    XorBits(a, b, 8, i);
    Wire8N1.BitsAreShifts(a, 8, i);
    Wire8N1.BitsAreShifts(b, 8, i);
    Wire8N1.BitsAreShifts(XorByte(a, b), 8, i);
  }

  lemma {:induction false} XorAllBit(seed: byte, s: seq<byte>, i: nat)
    requires i < 8
    ensures Wire8N1.Bit(XorAll(seed, s), i) <==> Wire8N1.Bit(seed, i) != (Ones(s, i) % 2 == 1)
    decreases |s|
  {
    hide XorByte, Wire8N1.Bit;
    if s != [] {
      XorBit(seed, s[0], i);
      XorAllBit(XorByte(seed, s[0]), s[1..], i);
    }
  }

  /** The checksum over a command, a length and a payload has the parity of every bit. */
  lemma ChecksumParity(cmd: byte, len: byte, payload: seq<byte>)
    ensures Parity(XorAll(XorByte(cmd, len), payload), [cmd, len] + payload)
  {
    hide XorByte, XorAll, Wire8N1.Bit;
    var s := [cmd, len] + payload;
    assert s[1..] == [len] + payload && s[1..][1..] == payload;
    forall i: nat | i < 8
      ensures Wire8N1.Bit(XorAll(XorByte(cmd, len), payload), i) <==> Ones(s, i) % 2 == 1
    {
      XorAllBit(XorByte(cmd, len), payload, i);
      XorBit(cmd, len, i);
      assert Ones(s[1..], i) == (if Wire8N1.Bit(len, i) then 1 else 0) + Ones(payload, i);
    }
  }

  /** A byte is determined by its eight bits. */
  lemma ParityDetermines(a: byte, b: byte, s: seq<byte>)
    requires Parity(a, s) && Parity(b, s)
    ensures a == b
  {
    hide Wire8N1.Bit;
    forall i: nat | i < 8 ensures Wire8N1.Bits(a, 8)[i] == Wire8N1.Bits(b, 8)[i] {
      Wire8N1.BitsAreShifts(a, 8, i);
      Wire8N1.BitsAreShifts(b, 8, i);
    }
    assert Wire8N1.Bits(a, 8) == Wire8N1.Bits(b, 8);
    assert Pow2(8) == 256;
    Wire8N1.ValueOfBits(a, 8);
    Wire8N1.ValueOfBits(b, 8);
  }

  /** The last byte of a built frame: bit i is set exactly when an odd number of the bytes between header
      and checksum have it set. */
  lemma ChecksumIsParity(cmd: byte, payload: seq<byte>)
    ensures var f := Build(cmd, payload);
            && |f| == 5 + |payload|
            && forall i: nat :: i < 8 ==>
                 (Wire8N1.Bit(f[4 + |payload|], i) <==> Ones([cmd, |payload| % 256] + payload, i) % 2 == 1)
  {
    hide XorByte, XorAll, Wire8N1.Bit, Ones;
    ChecksumParity(cmd, |payload| % 256, payload);
    assert Parity(Build(cmd, payload)[4 + |payload|], [cmd, |payload| % 256] + payload);
  }

  lemma ParityIsChecksum(s: seq<byte>)
    requires |s| >= 5 && |s| >= FrameLen(s)
    ensures ChecksumOk(s) <==> Parity(s[4 + s[3]], s[2..4 + s[3]])
  {
    hide XorByte, XorAll, Wire8N1.Bit, Ones;
    var n := s[3];
    var chk := XorAll(XorByte(s[2], n), s[4..4 + n]);
    ChecksumParity(s[2], n, s[4..4 + n]);
    assert s[2..4 + n] == [s[2], n] + s[4..4 + n];
    if Parity(s[4 + n], s[2..4 + n]) {
      ParityDetermines(s[4 + n], chk, s[2..4 + n]);
    }
  }

  /** A complete frame at the front of the buffer, its length in range, is taken as it stands exactly when
      its last byte has the parity of every bit of the bytes behind the header. */
  lemma AcceptedDecides(s: seq<byte>)
    requires |s| >= 5 && s[0] == 0xAA && s[1] == 0x55 && s[3] <= 12 && |s| >= 5 + s[3] as nat
    ensures var n := s[3];
            var covered, chk := s[2..4 + n], s[4 + n];
            Parse(s) == Parsed(Some(Frame(s[2], s[4..4 + n])), s[5 + n..]) <==>
              forall i: nat :: i < 8 ==> (Wire8N1.Bit(chk, i) <==> Ones(covered, i) % 2 == 1)
  {
    hide XorByte, XorAll, Wire8N1.Bit, Ones;
    var n := s[3];
    ParityIsChecksum(s);
    if !ChecksumOk(s) && Parse(s) == Parsed(Some(Frame(s[2], s[4..4 + n])), s[5 + n..]) {
      DropParses(s);
      LaterIsShorter(s[1..], Frame(s[2], s[4..4 + n]));
    }
  }

  /** A frame found and what stays behind it are no longer than the input. */
  lemma LaterIsShorter(s: seq<byte>, f: Frame)
    requires Parse(s).frame == Some(f)
    ensures 5 + |f.payload| + |Parse(s).rest| <= |s|
  {
    ParseSound(s);
    assert |Build(f.cmd, f.payload)| == 5 + |f.payload|;
  }

  // ---- soundness and progress ----

  /** The parser drops the first byte: no header, a length out of range, or a bad checksum. */
  predicate Drops(s: seq<byte>) {
    || NoHeader(s)
    || (s != [] && |s| >= 5 && (s[3] > MAX_PAYLOAD || (|s| >= FrameLen(s) && !ChecksumOk(s))))
  }

  /** The bytes dropped before the frame, or before what is left. */
  function Skipped(s: seq<byte>): (k: nat)
    ensures k <= |s|
  {
    if Drops(s) then 1 + Skipped(s[1..]) else 0
  }

  lemma FrameIsBuilt(s: seq<byte>)
    requires !NoHeader(s) && |s| >= 5 && |s| >= FrameLen(s) && s[3] <= MAX_PAYLOAD && ChecksumOk(s)
    ensures s == Build(s[2], s[4..4 + s[3]]) + s[FrameLen(s)..]
  {
    var n := s[3];
    var head, body := s[..4], s[4..4 + n];
    assert |body| == n && |body| % 256 == n;
    assert head == [H1, H2, s[2], n];
    assert Build(s[2], body) == head + body + [s[4 + n]];
    assert s == head + body + [s[4 + n]] + s[5 + n..];
  }

  /** The input is the dropped bytes, then the returned frame as Build writes it, then what stays.
      Without a frame at most 16 bytes stay, so there is room for at least 16 more. */
  lemma {:induction false} ParseSound(s: seq<byte>)
    ensures var p := Parse(s);
            && s[Skipped(s)..] == (if p.frame.Some? then Build(p.frame.value.cmd, p.frame.value.payload)
                                   else []) + p.rest
            && (p.frame.Some? ==> |p.frame.value.payload| <= MAX_PAYLOAD)
            && (p.frame.None? ==> |p.rest| <= 16)
  {
    if Drops(s) {
      DropParses(s);
      ParseSound(s[1..]);
      assert s[1..][Skipped(s[1..])..] == s[Skipped(s)..];
    } else {
      KeptSound(s);
    }
  }

  /** No frame stands at the front, whatever follows: the header is another, the length is out of range, or
      the frame is complete and its last byte has the wrong parity in some bit. */
  ghost predicate Rejected(s: seq<byte>) {
    && s != []
    && (|| s[0] != 0xAA || (|s| >= 2 && s[1] != 0x55)
        || (|s| >= 5 && s[3] > 12)
        || (|s| >= 5 && |s| >= 5 + s[3] as nat && !Parity(s[4 + s[3]], s[2..4 + s[3]])))
  }

  lemma DropsMeans(s: seq<byte>)
    ensures Drops(s) <==> Rejected(s)
  {
    hide XorByte, XorAll, Wire8N1.Bit, Ones, Parity;
    if !NoHeader(s) && |s| >= 5 && |s| >= FrameLen(s) {
      ParityIsChecksum(s);
    }
  }

  /** Nothing is passed over: at every byte dropped no frame stands, and where the parser stops one does,
      or may once more bytes have come. */
  lemma {:induction false} DropsNoFrame(s: seq<byte>)
    ensures forall j :: 0 <= j < Skipped(s) ==> Rejected(s[j..])
    ensures !Rejected(s[Skipped(s)..])
  {
    hide Rejected;
    DropsMeans(s);
    assert s[0..] == s;
    if Drops(s) {
      DropsNoFrame(s[1..]);
      assert forall j :: 1 <= j <= |s| ==> s[j..] == s[1..][j - 1..];
    }
  }

  lemma DropParses(s: seq<byte>)
    requires Drops(s)
    ensures Parse(s) == Parse(s[1..]) && Skipped(s) == 1 + Skipped(s[1..])
  {
  }

  lemma KeptSound(s: seq<byte>)
    requires !Drops(s)
    ensures var p := Parse(s);
            && Skipped(s) == 0
            && s[0..] == (if p.frame.Some? then Build(p.frame.value.cmd, p.frame.value.payload) else []) + p.rest
            && (p.frame.Some? ==> |p.frame.value.payload| <= MAX_PAYLOAD)
            && (p.frame.None? ==> |p.rest| <= 16)
  {
    if Parse(s).frame.Some? {
      FrameIsBuilt(s);
    } else {
      assert Parse(s).rest == s;
      assert s[0..] == s == [] + s;
    }
  }

  // ---- appending bytes never changes a decision already taken ----

  lemma {:induction false} ParseExtends(s: seq<byte>, t: seq<byte>)
    ensures var p := Parse(s);
            Parse(s + t) == if p.frame.Some? then p.(rest := p.rest + t) else Parse(p.rest + t)
  {
    if s == [] {
      assert s + t == t;
    } else if Drops(s) {
      assert (s + t)[1..] == s[1..] + t;
      if |s| >= 5 && s[3] <= MAX_PAYLOAD && |s| >= FrameLen(s) {
        assert (s + t)[4..4 + s[3]] == s[4..4 + s[3]];
      }
      ParseExtends(s[1..], t);
    } else if Parse(s).frame.Some? {
      assert (s + t)[4..4 + s[3]] == s[4..4 + s[3]];
      assert (s + t)[FrameLen(s)..] == s[FrameLen(s)..] + t;
    }
  }

  // ---- streams ----

  /** All frames of a stream, and the bytes that are not decided yet. */
  function Scan(s: seq<byte>): (seq<Frame>, seq<byte>)
    decreases |s|
  {
    var p := Parse(s);
    if p.frame.None? then ([], p.rest)
    else
      ParseShrinks(s);
      var (frames, rest) := Scan(p.rest); ([p.frame.value] + frames, rest)
  }

  lemma ParseShrinks(s: seq<byte>)
    ensures Parse(s).frame.Some? ==> |Parse(s).rest| < |s|
  {
    ParseSound(s);
  }

  lemma SameParseSameScan(s: seq<byte>, t: seq<byte>)
    requires Parse(s) == Parse(t)
    ensures Scan(s) == Scan(t)
  {
  }

  /** The receive loop's state: the buffer, and the frames returned so far. */
  datatype Loop = Loop(buffer: seq<byte>, frames: seq<Frame>)

  /** One turn of the loop: up to RX_BUF bytes are held, then one call of the parser. */
  function Turn(l: Loop, chunk: seq<byte>): Loop {
    var p := Parse(l.buffer + chunk);
    Loop(p.rest, l.frames + if p.frame.Some? then [p.frame.value] else [])
  }

  function Turns(l: Loop, chunks: seq<seq<byte>>): Loop
    decreases |chunks|
  {
    if chunks == [] then l else Turns(Turn(l, chunks[0]), chunks[1..])
  }

  function Concat(chunks: seq<seq<byte>>): seq<byte> {
    if chunks == [] then [] else chunks[0] + Concat(chunks[1..])
  }

  /** The frames of l and then of its buffer followed by more bytes, and the undecided bytes. */
  function Outcome(l: Loop, later: seq<byte>): Loop {
    var r := Scan(l.buffer + later);
    Loop(r.1, l.frames + r.0)
  }

  lemma TurnKeepsOutcome(l: Loop, chunk: seq<byte>, later: seq<byte>)
    ensures Outcome(Turn(l, chunk), later) == Outcome(l, chunk + later)
  {
    assert l.buffer + (chunk + later) == l.buffer + chunk + later;
    var held := l.buffer + chunk;
    var p := Parse(held);
    ParseExtends(held, later);
    if p.frame.Some? {
      ParseShrinks(held + later);
      assert l.frames + ([p.frame.value] + Scan(p.rest + later).0)
          == (l.frames + [p.frame.value]) + Scan(p.rest + later).0;
    } else {
      SameParseSameScan(held + later, p.rest + later);
      assert l.frames + [] == l.frames;
    }
  }

  /** However the stream is cut into chunks: the frames already returned, followed by those still in
      the buffer, are the frames of the whole stream, and the undecided bytes are the same. */
  lemma {:induction false} ChunkingIrrelevant(l: Loop, chunks: seq<seq<byte>>)
    ensures Outcome(Turns(l, chunks), []) == Outcome(l, Concat(chunks))
    decreases |chunks|
  {
    if chunks != [] {
      ChunkingIrrelevant(Turn(l, chunks[0]), chunks[1..]);
      TurnKeepsOutcome(l, chunks[0], Concat(chunks[1..]));
    }
  }

  /** Once the loop finds nothing more in a settled buffer, it has returned every frame of the
      stream and holds exactly the undecided bytes. */
  lemma LoopComplete(chunks: seq<seq<byte>>)
    requires var end := Turns(Loop([], []), chunks); Parse(end.buffer) == Parsed(None, end.buffer)
    ensures var end := Turns(Loop([], []), chunks); (end.frames, end.buffer) == Scan(Concat(chunks))
  {
    var start: Loop := Loop([], []);
    var end := Turns(start, chunks);
    ChunkingIrrelevant(start, chunks);
    assert end.buffer + [] == end.buffer && end.frames + [] == end.frames;
    assert Outcome(end, []) == Loop(end.buffer, end.frames);
    assert start.buffer + Concat(chunks) == Concat(chunks);
    assert start.frames + Scan(Concat(chunks)).0 == Scan(Concat(chunks)).0;
  }

  // ---- recovery and round trip ----

  predicate HeaderFree(s: seq<byte>) {
    forall i :: 0 <= i < |s| - 1 ==> !(s[i] == H1 && s[i + 1] == H2)
  }

  lemma BuiltParses(cmd: byte, payload: seq<byte>, suffix: seq<byte>)
    requires |payload| <= MAX_PAYLOAD
    ensures Parse(Build(cmd, payload) + suffix) == Parsed(Some(Frame(cmd, payload)), suffix)
  {
    var s := Build(cmd, payload) + suffix;
    assert s[3] == |payload|;
    assert s[4..4 + s[3]] == payload;
    assert s[FrameLen(s)..] == suffix;
  }

  /** Behind any noise that contains no header the frame is found, and exactly the suffix stays. */
  lemma {:induction false} Recovered(noise: seq<byte>, cmd: byte, payload: seq<byte>, suffix: seq<byte>)
    requires HeaderFree(noise) && |payload| <= MAX_PAYLOAD
    ensures Parse(noise + Build(cmd, payload) + suffix) == Parsed(Some(Frame(cmd, payload)), suffix)
  {
    var s := noise + Build(cmd, payload) + suffix;
    if noise == [] {
      BuiltParses(cmd, payload, suffix);
      assert s == Build(cmd, payload) + suffix;
    } else {
      assert s[0] == noise[0] && s[1] == if |noise| > 1 then noise[1] else H1;
      assert NoHeader(s);
      assert s[1..] == noise[1..] + Build(cmd, payload) + suffix;
      Recovered(noise[1..], cmd, payload, suffix);
    }
  }

  /** A built frame parses back exactly when its payload has at most 12 bytes. */
  lemma BuildParses(cmd: byte, payload: seq<byte>)
    ensures Parse(Build(cmd, payload)).frame == Some(Frame(cmd, payload)) <==> |payload| <= 12
  {
    if |payload| <= MAX_PAYLOAD {
      BuiltParses(cmd, payload, []);
      assert Build(cmd, payload) + [] == Build(cmd, payload);
    } else {
      ParseSound(Build(cmd, payload));
    }
  }

  // ---- the code ----

  /** buf.copy_within(from..len, 0). */
  method ShiftDown(buf: array<byte>, from: nat, len: nat)
    requires 0 < from <= len <= buf.Length
    modifies buf
    ensures buf[..len - from] == old(buf[from..len])
  {
    var i := 0;
    while i < len - from
      invariant 0 <= i <= len - from
      invariant forall k :: 0 <= k < i ==> buf[k] == old(buf[k + from])
      invariant forall k :: i <= k < buf.Length ==> buf[k] == old(buf[k])
    {
      buf[i] := buf[i + from];
      i := i + 1;
    }
  }

  method Checksum(seed: byte, s: seq<byte>) returns (chk: byte)
    ensures chk == XorAll(seed, s)
  {
    chk := seed;
    var i := 0;
    while i < |s|
      invariant 0 <= i <= |s| && XorAll(chk, s[i..]) == XorAll(seed, s)
    {
      chk := XorByte(chk, s[i]);
      assert s[i..][1..] == s[i + 1..];
      i := i + 1;
    }
  }

  method BuildFrame(cmd: byte, payload: seq<byte>, out: array<byte>) returns (n: nat)
    requires 5 + |payload| <= out.Length
    modifies out
    ensures n == 5 + |payload| && out[..n] == Build(cmd, payload)
  {
    var chk := Checksum(XorByte(cmd, |payload| % 256), payload);
    var head: seq<byte> := [H1, H2, cmd, |payload| % 256];
    assert Build(cmd, payload) == head + payload + [chk];
    CopyIn(head, out, 0);
    CopyIn(payload, out, 4);
    assert out[..4] == head;
    assert out[..4 + |payload|] == out[..4] + out[4..4 + |payload|];
    out[4 + |payload|] := chk;
    n := 5 + |payload|;
    assert out[..4 + |payload|] == head + payload;
    assert out[..n] == out[..4 + |payload|] + [chk];
  }

  /** The loop that drops bytes until a header may start at buf[0]. */
  method SkipNoise(buf: array<byte>, len: nat) returns (len': nat)
    requires len <= buf.Length
    modifies buf
    ensures len' <= len && !NoHeader(buf[..len'])
    ensures Parse(buf[..len']) == old(Parse(buf[..len]))
  {
    len' := len;
    while len' >= 1 && !(buf[0] == H1 && (len' < 2 || buf[1] == H2))
      invariant len' <= len && Parse(buf[..len']) == old(Parse(buf[..len]))
    {
      assert buf[..len'][1..] == buf[1..len'];
      ShiftDown(buf, 1, len');
      len' := len' - 1;
    }
  }

  /** Whether the announced frame, all of it received, carries the right checksum. */
  method ChecksumMatches(buf: array<byte>, len: nat) returns (ok: bool)
    requires 5 <= len <= buf.Length && FrameLen(buf[..len]) <= len
    ensures ok <==> ChecksumOk(buf[..len])
  {
    var flen := 5 + (buf[3] as nat);
    var chk := Checksum(XorByte(buf[2], buf[3]), buf[4..flen - 1]);
    assert buf[4..flen - 1] == buf[..len][4..4 + buf[3]];
    ok := chk == buf[flen - 1];
  }

  /** Consumes from the front of buf[..len] what Parse consumes; len' bytes stay. */
  method ParseFrame(buf: array<byte>, len: nat) returns (frame: Option<Frame>, len': nat)
    requires buf.Length == RX_BUF && len <= RX_BUF
    modifies buf
    ensures len' <= len
    ensures Parse(old(buf[..len])) == Parsed(frame, buf[..len'])
  {
    len' := len;
    while true
      invariant len' <= len && Parse(buf[..len']) == old(Parse(buf[..len]))
      decreases len'
    {
      len' := SkipNoise(buf, len');
      if len' < 5 {
        return None, len';
      }
      ghost var s := buf[..len'];
      assert s[1..] == buf[1..len'];
      var flen := 5 + (buf[3] as nat);
      if flen > RX_BUF || flen > 5 + MAX_PAYLOAD {
        ShiftDown(buf, 1, len');
        len' := len' - 1;
        continue;
      }
      if len' < flen {
        return None, len';
      }
      var ok := ChecksumMatches(buf, len');
      if !ok {
        ShiftDown(buf, 1, len');
        len' := len' - 1;
        continue;
      }
      frame := Some(Frame(buf[2], buf[4..flen - 1]));
      assert buf[4..flen - 1] == s[4..4 + s[3]] && s[flen..] == buf[flen..len'];
      ShiftDown(buf, flen, len');
      return frame, len' - flen;
    }
  }
}
