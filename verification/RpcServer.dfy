/** The RPC server: one message at a time from a channel, classified, handed to the service or answered
    from the descriptor, and answered on CH1 with a result, a poison, or nothing.
    The rest of the system appears as a script: before each receive it may put requests into both
    channels, take responses off CH1 and add completions of earlier requests to it.
    Main results, over whole lives of the server: every message is taken once and in order, every
    two-way request that is not deferred is offered exactly one response with its own rid, in order,
    and no other request any (LifeAccounts); a doorbell follows the response it announces except for a
    one-way INIT (BellsFollow); a pass empties URGENT before it touches REQ (UrgentFirst); and
    process_all reports everything it consumed exactly when all of it was serviced (CountDecides). */
module RpcServer {
  import opened Basics
  import Framing

  const NOTIFY_FLAG: nat := 0x8000_0000_0000_0000
  const ONE_WAY_FLAG: nat := 0x4000_0000_0000_0000
  const METHOD_INIT: nat := 0

  predicate WantsNotify(raw: nat) {
    raw / NOTIFY_FLAG % 2 == 1
  }

  predicate IsOneWay(raw: nat) {
    raw / ONE_WAY_FLAG % 2 == 1
  }

  function StripFlags(raw: nat): nat {
    raw % ONE_WAY_FLAG
  }

  /** What the client's call, call_poll, send and urgent put in a method id is what the server reads. */
  lemma FlagsRead(mid: nat, notify: bool, oneWay: bool)
    requires mid < ONE_WAY_FLAG
    ensures var raw := mid + (if oneWay then ONE_WAY_FLAG else 0) + (if notify then NOTIFY_FLAG else 0);
            StripFlags(raw) == mid && WantsNotify(raw) == notify && IsOneWay(raw) == oneWay
  {
    var raw := mid + (if oneWay then ONE_WAY_FLAG else 0) + (if notify then NOTIFY_FLAG else 0);
    assert raw / ONE_WAY_FLAG == (if oneWay then 1 else 0) + (if notify then 2 else 0);
  }

  /** What the service makes of a request; a value may still be too long to send. */
  datatype Outcome = Value(data: seq<byte>) | Deferred | Silent | BadArgs

  /** A message: a request, with what the service will make of it, or anything else. */
  datatype Msg = Call(raw: u64, rid: u64, outcome: Outcome) | NotRequest(id: nat)

  datatype Reply = Result(rid: u64, data: seq<byte>) | Poison(rid: u64)

  datatype Kind = Notify | Quiet | OneWay

  datatype ProcessResult = NoMessage | Handled(kind: Kind) | Unhandled(mid: nat) | NotRpc(m: Msg)

  datatype Service = Service(descriptor: seq<byte>, capacity: nat)

  // ---- classification ----

  datatype Judged = Judged(reply: Option<Reply>, result: ProcessResult)

  /** The branches of process_channel for a message taken. */
  function Judge(sv: Service, m: Msg): (j: Judged)
    ensures !j.result.NoMessage?
  {
    match m
    case NotRequest(_) => Judged(None, NotRpc(m))
    case Call(raw, rid, outcome) =>
      var oneWay, notify, mid := IsOneWay(raw), WantsNotify(raw), StripFlags(raw);
      var failed := Judged(if oneWay then None else Some(Poison(rid)), Unhandled(mid));
      if mid == METHOD_INIT then
        if |sv.descriptor| > Framing.RESPONSE_DATA_MAX then failed
        else Judged(if oneWay then None else Some(Result(rid, sv.descriptor)),
                    Handled(if notify then Notify else Quiet))
      else match outcome
        case Deferred => Judged(None, Handled(Quiet))
        case Silent => if oneWay then Judged(None, Handled(OneWay)) else failed
        case BadArgs => failed
        case Value(data) =>
          if |data| > Framing.RESPONSE_DATA_MAX then failed
          else if oneWay then Judged(None, Handled(OneWay))
          else Judged(Some(Result(rid, data)), Handled(if notify then Notify else Quiet))
  }

  predicate IsInit(m: Msg) {
    m.Call? && StripFlags(m.raw) == METHOD_INIT
  }

  /** An accepted acall: somebody else answers it later. */
  predicate IsDeferred(m: Msg) {
    m.Call? && m.outcome.Deferred? && !IsInit(m)
  }

  predicate TwoWay(m: Msg) {
    m.Call? && !IsOneWay(m.raw)
  }

  /** The result of a request, if it has one that fits a response. */
  function ResultOf(sv: Service, m: Msg): Option<seq<byte>>
    requires m.Call?
  {
    var data := if IsInit(m) then Some(sv.descriptor) else if m.outcome.Value? then Some(m.outcome.data) else None;
    if data.Some? && |data.value| <= Framing.RESPONSE_DATA_MAX then data else None
  }

  /** The response a request is owed: its result, or a poison. */
  function Due(sv: Service, m: Msg): (r: Reply)
    requires m.Call?
    ensures r.rid == m.rid
  {
    var data := ResultOf(sv, m);
    if data.Some? then Result(m.rid, data.value) else Poison(m.rid)
  }

  /** Whether the server rings the client after this message. */
  predicate Rings(sv: Service, m: Msg) {
    m.Call? && WantsNotify(m.raw) && ResultOf(sv, m).Some? && (TwoWay(m) || IsInit(m))
  }

  lemma JudgeDecides(sv: Service, m: Msg)
    ensures var j := Judge(sv, m);
            && j.reply == (if TwoWay(m) && !IsDeferred(m) then Some(Due(sv, m)) else None)
            && (j.result == Handled(Notify) <==> Rings(sv, m))
            && (j.result == NotRpc(m) <==> m.NotRequest?) && (j.result.NotRpc? ==> m.NotRequest?)
            && (j.result == Handled(OneWay) <==> m.Call? && IsOneWay(m.raw) && !IsInit(m)
                                                 && (m.outcome.Silent? || ResultOf(sv, m).Some?))
            && (j.result.Unhandled? <==> m.Call? && !IsDeferred(m) && ResultOf(sv, m).None?
                                         && !(IsOneWay(m.raw) && m.outcome.Silent? && !IsInit(m)))
            && (j.result.Unhandled? ==> j.result.mid == StripFlags(m.raw))
  {
  }

  /** The one case in which the client is rung without having been sent anything: a one-way INIT that
      asks for the doorbell. */
  lemma SilentBellDecides(sv: Service, m: Msg)
    ensures var j := Judge(sv, m);
            j.reply.None? && j.result == Handled(Notify) <==>
              IsInit(m) && IsOneWay(m.raw) && WantsNotify(m.raw) && |sv.descriptor| <= Framing.RESPONSE_DATA_MAX
  {
    JudgeDecides(sv, m);
  }

  lemma SilentBell(sv: Service, rid: u64, outcome: Outcome)
    requires |sv.descriptor| <= Framing.RESPONSE_DATA_MAX
    ensures Judge(sv, Call(NOTIFY_FLAG + ONE_WAY_FLAG, rid, outcome)) == Judged(None, Handled(Notify))
  {
    FlagsRead(METHOD_INIT, true, true);
  }

  /** The client's four ways to call: call, call_poll, send, and urgent, which sends like send. */
  datatype Mode = ByCall | ByPoll | BySend

  /** The method id the client puts into the request. */
  function RawOf(mode: Mode, mid: nat): u64
    requires mid < ONE_WAY_FLAG
  {
    match mode
    case ByCall => mid + NOTIFY_FLAG
    case ByPoll => mid
    case BySend => mid + ONE_WAY_FLAG
  }

  /** For every method and whatever the service makes of it: a call or call_poll is answered unless it is
      deferred, a send never; and only a call with a result is rung for. */
  lemma ModeDecides(sv: Service, mode: Mode, mid: nat, rid: u64, outcome: Outcome)
    requires mid < ONE_WAY_FLAG
    ensures var m := Call(RawOf(mode, mid), rid, outcome);
            var j := Judge(sv, m);
            && (j.reply.Some? <==> mode != BySend && !IsDeferred(m))
            && (j.reply.Some? ==> j.reply.value.rid == rid)
            && (j.result == Handled(Notify) <==> mode == ByCall && ResultOf(sv, m).Some?)
  {
    FlagsRead(mid, mode == ByCall, mode == BySend);
    JudgeDecides(sv, Call(RawOf(mode, mid), rid, outcome));
  }

  // ---- receiving and answering ----

  /** What the rest of the system does before a receive. */
  datatype World = World(req: seq<Msg>, urgent: seq<Msg>, taken: nat, completions: seq<Reply>)

  datatype Chans = Chans(req: seq<Msg>, urgent: seq<Msg>, resp: seq<Reply>, script: seq<World>)

  datatype Event =
    | Outside(w: World)
    | Empty(urgent: bool)
    | Took(urgent: bool, m: Msg)
    | Offered(r: Reply, accepted: bool)
    | Bell
    | Other(m: Msg)

  function Chan(c: Chans, urgent: bool): seq<Msg> {
    if urgent then c.urgent else c.req
  }

  function Arrivals(w: World, urgent: bool): seq<Msg> {
    if urgent then w.urgent else w.req
  }

  function Min(a: nat, b: nat): nat {
    if a < b then a else b
  }

  function Turn(c: Chans): Chans {
    if c.script == [] then c
    else
      var w := c.script[0];
      Chans(c.req + w.req, c.urgent + w.urgent, c.resp[Min(w.taken, |c.resp|)..] + w.completions, c.script[1..])
  }

  function TurnLog(c: Chans): seq<Event> {
    if c.script == [] then [] else [Outside(c.script[0])]
  }

  function Blocks(r: Reply): nat {
    if r.Poison? || |r.data| > Framing.RESPONSE_DATA_MAX || 8 + |r.data| <= Framing.PAYLOAD_SIZE then 1
    else Framing.BlockCount(8 + |r.data|)
  }

  function Used(resp: seq<Reply>): nat {
    if resp == [] then 0 else Blocks(resp[0]) + Used(resp[1..])
  }

  /** Whether CH1 has room. */
  predicate Accepts(sv: Service, resp: seq<Reply>, r: Reply) {
    Used(resp) + Blocks(r) <= sv.capacity
  }

  function Offer(sv: Service, resp: seq<Reply>, r: Option<Reply>): seq<Reply> {
    if r.Some? && Accepts(sv, resp, r.value) then resp + [r.value] else resp
  }

  function OfferLog(sv: Service, resp: seq<Reply>, r: Option<Reply>): seq<Event> {
    if r.None? then [] else [Offered(r.value, Accepts(sv, resp, r.value))]
  }

  function WithoutHead(c: Chans, urgent: bool): Chans
    requires Chan(c, urgent) != []
  {
    if urgent then c.(urgent := c.urgent[1..]) else c.(req := c.req[1..])
  }

  datatype Processed = Processed(chans: Chans, log: seq<Event>, result: ProcessResult)

  /** process_channel. */
  function Process(sv: Service, c: Chans, urgent: bool): Processed {
    var t := Turn(c);
    if Chan(t, urgent) == [] then Processed(t, TurnLog(c) + [Empty(urgent)], NoMessage)
    else
      var m := Chan(t, urgent)[0];
      var j := Judge(sv, m);
      Processed(WithoutHead(t, urgent).(resp := Offer(sv, t.resp, j.reply)),
                TurnLog(c) + [Took(urgent, m)] + OfferLog(sv, t.resp, j.reply), j.result)
  }

  /** What the caller of process_channel does with its result. */
  function FollowLog(r: ProcessResult): seq<Event> {
    if r == Handled(Notify) then [Bell] else if r.NotRpc? then [Other(r.m)] else []
  }

  datatype Drained = Drained(chans: Chans, log: seq<Event>, results: seq<ProcessResult>)

  /** One channel until it is observed empty. */
  function Drain(sv: Service, c: Chans, urgent: bool): Drained
    decreases |c.script|, |Chan(c, urgent)|
  {
    var p := Process(sv, c, urgent);
    if p.result.NoMessage? then Drained(p.chans, p.log, [])
    else
      var d := Drain(sv, p.chans, urgent);
      Drained(d.chans, p.log + FollowLog(p.result) + d.log, [p.result] + d.results)
  }

  /** A pass: URGENT, then REQ. */
  function Pass(sv: Service, c: Chans): Drained {
    var a := Drain(sv, c, true);
    var b := Drain(sv, a.chans, false);
    Drained(b.chans, a.log + b.log, a.results + b.results)
  }

  /** Any number of passes, each with its own script of the rest of the system. */
  function Life(sv: Service, c: Chans, scripts: seq<seq<World>>): Drained
    decreases |scripts|
  {
    if scripts == [] then Drained(c, [], [])
    else
      var a := Pass(sv, c.(script := scripts[0]));
      var b := Life(sv, a.chans, scripts[1..]);
      Drained(b.chans, a.log + b.log, a.results + b.results)
  }

  // ---- what a log says ----

  function Collect<T>(f: Event -> seq<T>, log: seq<Event>): seq<T> {
    if log == [] then [] else f(log[0]) + Collect(f, log[1..])
  }

  lemma {:induction false} CollectAppend<T>(f: Event -> seq<T>, a: seq<Event>, b: seq<Event>)
    ensures Collect(f, a + b) == Collect(f, a) + Collect(f, b)
  {
    if a == [] {
      assert a + b == b;
    } else {
      assert (a + b)[0] == a[0] && (a + b)[1..] == a[1..] + b;
      CollectAppend(f, a[1..], b);
      assert f(a[0]) + (Collect(f, a[1..]) + Collect(f, b)) == f(a[0]) + Collect(f, a[1..]) + Collect(f, b);
    }
  }

  lemma CollectOne<T>(f: Event -> seq<T>, e: Event)
    ensures Collect(f, [e]) == f(e)
  {
    assert [e][1..] == [];
    assert Collect(f, [e][1..]) == [];
  }

  function TookAny(e: Event): seq<Msg> {
    if e.Took? then [e.m] else []
  }

  function TookOn(urgent: bool): Event -> seq<Msg> {
    (e: Event) => if e.Took? && e.urgent == urgent then [e.m] else []
  }

  function ArrivedOn(urgent: bool): Event -> seq<Msg> {
    (e: Event) => if e.Outside? then Arrivals(e.w, urgent) else []
  }

  function OfferIn(e: Event): seq<Reply> {
    if e.Offered? then [e.r] else []
  }

  /** What went into CH1, from the server or from others. */
  function SentIn(e: Event): seq<Reply> {
    match e
    case Offered(r, accepted) => if accepted then [r] else []
    case Outside(w) => w.completions
    case _ => []
  }

  function FailedIn(e: Event): seq<Reply> {
    if e.Offered? && !e.accepted then [e.r] else []
  }

  function BellIn(e: Event): seq<Event> {
    if e.Bell? then [e] else []
  }

  /** What was handed to the callback for what is no request. */
  function PassedIn(e: Event): seq<Msg> {
    if e.Other? then [e.m] else []
  }

  function Fails(log: seq<Event>): nat {
    |Collect(FailedIn, log)|
  }

  function Bells(log: seq<Event>): nat {
    |Collect(BellIn, log)|
  }

  // ---- conservation on the three channels ----

  predicate Suffix(a: seq<Reply>, b: seq<Reply>) {
    |b| <= |a| && a[|a| - |b|..] == b
  }

  /** What was taken from a request channel, then what it holds, is what it held, then what arrived. */
  ghost predicate InOrder(c: Chans, log: seq<Event>, c': Chans, urgent: bool) {
    Collect(TookOn(urgent), log) + Chan(c', urgent) == Chan(c, urgent) + Collect(ArrivedOn(urgent), log)
  }

  /** CH1 holds the end of what it held and what was sent: the rest has been delivered, in order. */
  ghost predicate Delivers(c: Chans, log: seq<Event>, c': Chans) {
    Suffix(c.resp + Collect(SentIn, log), c'.resp)
  }

  ghost predicate Explains(c: Chans, log: seq<Event>, c': Chans) {
    InOrder(c, log, c', true) && InOrder(c, log, c', false) && Delivers(c, log, c')
  }

  lemma Joins(took: seq<Msg>, mid: seq<Msg>, start: seq<Msg>, came: seq<Msg>,
              took': seq<Msg>, end: seq<Msg>, came': seq<Msg>)
    requires took + mid == start + came && took' + end == mid + came'
    ensures took + took' + end == start + (came + came')
  {
    assert took + took' + end == took + (took' + end) == took + mid + came' == start + (came + came');
  }

  lemma InOrderJoins(c: Chans, a: seq<Event>, c1: Chans, b: seq<Event>, c2: Chans, urgent: bool)
    requires InOrder(c, a, c1, urgent) && InOrder(c1, b, c2, urgent)
    ensures InOrder(c, a + b, c2, urgent)
  {
    CollectAppend(TookOn(urgent), a, b);
    CollectAppend(ArrivedOn(urgent), a, b);
    Joins(Collect(TookOn(urgent), a), Chan(c1, urgent), Chan(c, urgent), Collect(ArrivedOn(urgent), a),
          Collect(TookOn(urgent), b), Chan(c2, urgent), Collect(ArrivedOn(urgent), b));
  }

  lemma DeliversJoins(c: Chans, a: seq<Event>, c1: Chans, b: seq<Event>, c2: Chans)
    requires Delivers(c, a, c1) && Delivers(c1, b, c2)
    ensures Delivers(c, a + b, c2)
  {
    CollectAppend(SentIn, a, b);
    var x, y, z := c.resp + Collect(SentIn, a), c1.resp, Collect(SentIn, b);
    assert x + z == c.resp + (Collect(SentIn, a) + z);
    SuffixGrows(x, y, z);
    SuffixJoins(x + z, y + z, c2.resp);
  }

  lemma SuffixGrows(x: seq<Reply>, y: seq<Reply>, z: seq<Reply>)
    requires Suffix(x, y)
    ensures Suffix(x + z, y + z)
  {
    var k := |x| - |y|;
    assert x == x[..k] + y;
    assert x + z == x[..k] + (y + z);
  }

  lemma SuffixJoins(x: seq<Reply>, y: seq<Reply>, z: seq<Reply>)
    requires Suffix(x, y) && Suffix(y, z)
    ensures Suffix(x, z)
  {
    assert x[|x| - |z|..] == x[|x| - |y|..][|y| - |z|..];
  }

  lemma ExplainsJoins(c: Chans, a: seq<Event>, c1: Chans, b: seq<Event>, c2: Chans)
    requires Explains(c, a, c1) && Explains(c1, b, c2)
    ensures Explains(c, a + b, c2)
  {
    InOrderJoins(c, a, c1, b, c2, true);
    InOrderJoins(c, a, c1, b, c2, false);
    DeliversJoins(c, a, c1, b, c2);
  }

  lemma NothingExplains(c: Chans)
    ensures Explains(c, [], c)
  {
    WholeIsSuffix(c.resp);
  }

  /** One event explains a change if it does for each channel. */
  lemma EventExplains(c: Chans, e: Event, c': Chans)
    requires TookOn(true)(e) + Chan(c', true) == Chan(c, true) + ArrivedOn(true)(e)
    requires TookOn(false)(e) + Chan(c', false) == Chan(c, false) + ArrivedOn(false)(e)
    requires Suffix(c.resp + SentIn(e), c'.resp)
    ensures Explains(c, [e], c')
  {
    CollectOne(TookOn(true), e);
    CollectOne(TookOn(false), e);
    CollectOne(ArrivedOn(true), e);
    CollectOne(ArrivedOn(false), e);
    CollectOne(SentIn, e);
  }

  lemma WholeIsSuffix(s: seq<Reply>)
    ensures Suffix(s, s) && Suffix(s + [], s)
  {
    assert s[0..] == s && s + [] == s;
  }

  lemma TurnExplains(c: Chans)
    ensures Explains(c, TurnLog(c), Turn(c))
  {
    if c.script == [] {
      NothingExplains(c);
    } else {
      var w := c.script[0];
      var k := Min(w.taken, |c.resp|);
      assert c.resp + w.completions == c.resp[..k] + (c.resp[k..] + w.completions);
      EventExplains(c, Outside(w), Turn(c));
    }
  }

  lemma TookExplains(c: Chans, urgent: bool)
    requires Chan(c, urgent) != []
    ensures Explains(c, [Took(urgent, Chan(c, urgent)[0])], WithoutHead(c, urgent))
  {
    assert Chan(c, urgent) == [Chan(c, urgent)[0]] + Chan(c, urgent)[1..];
    WholeIsSuffix(c.resp);
    EventExplains(c, Took(urgent, Chan(c, urgent)[0]), WithoutHead(c, urgent));
  }

  lemma OfferExplains(sv: Service, c: Chans, r: Option<Reply>)
    ensures Explains(c, OfferLog(sv, c.resp, r), c.(resp := Offer(sv, c.resp, r)))
  {
    var c' := c.(resp := Offer(sv, c.resp, r));
    if r.None? {
      NothingExplains(c);
    } else {
      WholeIsSuffix(c'.resp);
      EventExplains(c, Offered(r.value, Accepts(sv, c.resp, r.value)), c');
    }
  }

  /** Events that move no message. */
  lemma QuietExplains(c: Chans, e: Event)
    requires e.Empty? || e.Bell? || e.Other?
    ensures Explains(c, [e], c)
  {
    WholeIsSuffix(c.resp);
    EventExplains(c, e, c);
  }

  lemma ProcessExplains(sv: Service, c: Chans, urgent: bool)
    ensures var p := Process(sv, c, urgent); Explains(c, p.log, p.chans)
  {
    var t := Turn(c);
    TurnExplains(c);
    if Chan(t, urgent) == [] {
      QuietExplains(t, Empty(urgent));
      ExplainsJoins(c, TurnLog(c), t, [Empty(urgent)], t);
    } else {
      var m, w := Chan(t, urgent)[0], WithoutHead(t, urgent);
      var reply := Judge(sv, m).reply;
      TookExplains(t, urgent);
      ExplainsJoins(c, TurnLog(c), t, [Took(urgent, m)], w);
      OfferExplains(sv, w, reply);
      var end := w.(resp := Offer(sv, t.resp, reply));
      ExplainsJoins(c, TurnLog(c) + [Took(urgent, m)], w, OfferLog(sv, t.resp, reply), end);
    }
  }

  lemma FollowExplains(c: Chans, a: seq<Event>, c1: Chans, r: ProcessResult)
    requires Explains(c, a, c1)
    ensures Explains(c, a + FollowLog(r), c1)
  {
    if FollowLog(r) == [] {
      assert a + FollowLog(r) == a;
    } else {
      QuietExplains(c1, FollowLog(r)[0]);
      ExplainsJoins(c, a, c1, FollowLog(r), c1);
    }
  }

  lemma {:induction false} DrainExplains(sv: Service, c: Chans, urgent: bool)
    ensures var d := Drain(sv, c, urgent); Explains(c, d.log, d.chans)
    decreases |c.script|, |Chan(c, urgent)|
  {
    var p := Process(sv, c, urgent);
    ProcessExplains(sv, c, urgent);
    if !p.result.NoMessage? {
      DrainExplains(sv, p.chans, urgent);
      FollowExplains(c, p.log, p.chans, p.result);
      var d := Drain(sv, p.chans, urgent);
      ExplainsJoins(c, p.log + FollowLog(p.result), p.chans, d.log, d.chans);
    }
  }

  lemma {:induction false} LifeExplains(sv: Service, c: Chans, scripts: seq<seq<World>>)
    ensures var l := Life(sv, c, scripts); Explains(c, l.log, l.chans)
    decreases |scripts|
  {
    if scripts == [] {
      NothingExplains(c);
    } else {
      var c0 := c.(script := scripts[0]);
      var a := Drain(sv, c0, true);
      var b := Drain(sv, a.chans, false);
      DrainExplains(sv, c0, true);
      DrainExplains(sv, a.chans, false);
      ExplainsJoins(c0, a.log, a.chans, b.log, b.chans);
      LifeExplains(sv, b.chans, scripts[1..]);
      var l := Life(sv, b.chans, scripts[1..]);
      assert Explains(c, a.log + b.log, b.chans);
      ExplainsJoins(c, a.log + b.log, b.chans, l.log, l.chans);
    }
  }

  // ---- one response each ----

  /** The responses that requests are owed by the server itself, in order. */
  function Owed(sv: Service, ms: seq<Msg>): seq<Reply> {
    if ms == [] then []
    else (if TwoWay(ms[0]) && !IsDeferred(ms[0]) then [Due(sv, ms[0])] else []) + Owed(sv, ms[1..])
  }

  function Ringing(sv: Service, ms: seq<Msg>): nat {
    if ms == [] then 0 else (if Rings(sv, ms[0]) then 1 else 0) + Ringing(sv, ms[1..])
  }

  /** What is no request, in order. */
  function NotRequests(ms: seq<Msg>): seq<Msg> {
    if ms == [] then [] else (if ms[0].NotRequest? then [ms[0]] else []) + NotRequests(ms[1..])
  }

  lemma {:induction false} OwedAppend(sv: Service, a: seq<Msg>, b: seq<Msg>)
    ensures Owed(sv, a + b) == Owed(sv, a) + Owed(sv, b) && Ringing(sv, a + b) == Ringing(sv, a) + Ringing(sv, b)
  {
    hide TwoWay, IsDeferred, Due, Rings;
    if a == [] {
      assert a + b == b;
    } else {
      assert (a + b)[0] == a[0] && (a + b)[1..] == a[1..] + b;
      OwedAppend(sv, a[1..], b);
    }
  }

  lemma {:induction false} NotRequestsAppend(a: seq<Msg>, b: seq<Msg>)
    ensures NotRequests(a + b) == NotRequests(a) + NotRequests(b)
  {
    if a == [] {
      assert a + b == b;
    } else {
      assert (a + b)[0] == a[0] && (a + b)[1..] == a[1..] + b;
      NotRequestsAppend(a[1..], b);
    }
  }

  lemma OwedOne(sv: Service, m: Msg)
    ensures Owed(sv, [m]) == if TwoWay(m) && !IsDeferred(m) then [Due(sv, m)] else []
    ensures Ringing(sv, [m]) == if Rings(sv, m) then 1 else 0
    ensures NotRequests([m]) == if m.NotRequest? then [m] else []
  {
    assert [m][1..] == [];
    assert Owed(sv, [m][1..]) == [] && Ringing(sv, [m][1..]) == 0 && NotRequests([m][1..]) == [];
  }

  /** The offers are what the messages taken are owed, and so are the bells; and what is no request is
      passed on. */
  ghost predicate Accounts(sv: Service, log: seq<Event>) {
    && Collect(OfferIn, log) == Owed(sv, Collect(TookAny, log))
    && Bells(log) == Ringing(sv, Collect(TookAny, log))
    && Collect(PassedIn, log) == NotRequests(Collect(TookAny, log))
  }

  lemma AccountsJoin(sv: Service, a: seq<Event>, b: seq<Event>)
    requires Accounts(sv, a) && Accounts(sv, b)
    ensures Accounts(sv, a + b)
  {
    CollectAppend(OfferIn, a, b);
    CollectAppend(TookAny, a, b);
    CollectAppend(BellIn, a, b);
    CollectAppend(PassedIn, a, b);
    OwedAppend(sv, Collect(TookAny, a), Collect(TookAny, b));
    NotRequestsAppend(Collect(TookAny, a), Collect(TookAny, b));
  }

  /** Events that concern neither a message taken nor an offer nor a bell. */
  lemma ForeignAccounts(sv: Service, e: Event)
    requires e.Empty? || e.Outside?
    ensures Accounts(sv, [e])
  {
    CollectOne(OfferIn, e);
    CollectOne(TookAny, e);
    CollectOne(BellIn, e);
    CollectOne(PassedIn, e);
  }

  lemma TurnAccounts(sv: Service, c: Chans)
    ensures Accounts(sv, TurnLog(c))
  {
    if c.script != [] {
      ForeignAccounts(sv, Outside(c.script[0]));
    }
  }

  /** A message taken, what it is answered, and what follows. */
  function Handling(sv: Service, resp: seq<Reply>, urgent: bool, m: Msg): seq<Event> {
    [Took(urgent, m)] + OfferLog(sv, resp, Judge(sv, m).reply) + FollowLog(Judge(sv, m).result)
  }

  lemma HandlingCollects<T>(f: Event -> seq<T>, sv: Service, resp: seq<Reply>, urgent: bool, m: Msg)
    ensures var o, r := OfferLog(sv, resp, Judge(sv, m).reply), FollowLog(Judge(sv, m).result);
            Collect(f, Handling(sv, resp, urgent, m))
            == f(Took(urgent, m)) + (if o == [] then [] else f(o[0])) + (if r == [] then [] else f(r[0]))
  {
    var o, r := OfferLog(sv, resp, Judge(sv, m).reply), FollowLog(Judge(sv, m).result);
    CollectAppend(f, [Took(urgent, m)] + o, r);
    CollectAppend(f, [Took(urgent, m)], o);
    CollectOne(f, Took(urgent, m));
    if o != [] {
      CollectOne(f, o[0]);
    }
    if r != [] {
      CollectOne(f, r[0]);
    }
  }

  lemma HandlingOffers(sv: Service, resp: seq<Reply>, urgent: bool, m: Msg)
    ensures var h := Handling(sv, resp, urgent, m);
            Collect(TookAny, h) == [m] && Collect(OfferIn, h) == Owed(sv, [m])
  {
    hide Judge, Rings, NotRequests, Ringing;
    JudgeDecides(sv, m);
    OwedOne(sv, m);
    HandlingCollects(OfferIn, sv, resp, urgent, m);
    HandlingCollects(TookAny, sv, resp, urgent, m);
  }

  lemma HandlingRings(sv: Service, resp: seq<Reply>, urgent: bool, m: Msg)
    ensures Bells(Handling(sv, resp, urgent, m)) == Ringing(sv, [m])
  {
    hide Judge, Owed, NotRequests;
    JudgeDecides(sv, m);
    OwedOne(sv, m);
    HandlingCollects(BellIn, sv, resp, urgent, m);
  }

  /** Passed on is the message itself, if it is no request. */
  lemma HandlingPasses(sv: Service, resp: seq<Reply>, urgent: bool, m: Msg)
    ensures Collect(PassedIn, Handling(sv, resp, urgent, m)) == NotRequests([m])
  {
    hide Judge, Owed, Ringing;
    JudgeDecides(sv, m);
    OwedOne(sv, m);
    HandlingCollects(PassedIn, sv, resp, urgent, m);
  }

  lemma HandlingAccounts(sv: Service, resp: seq<Reply>, urgent: bool, m: Msg)
    ensures Accounts(sv, Handling(sv, resp, urgent, m))
  {
    HandlingOffers(sv, resp, urgent, m);
    HandlingRings(sv, resp, urgent, m);
    HandlingPasses(sv, resp, urgent, m);
  }

  /** The doorbell comes right after the offer of the result it announces; only a one-way INIT, which
      is sent nothing, is rung for all the same. */
  predicate BellsFollow(log: seq<Event>) {
    forall i :: 0 <= i < |log| && log[i].Bell? ==>
      i > 0 && (if log[i - 1].Took? then IsInit(log[i - 1].m) && IsOneWay(log[i - 1].m.raw)
                else log[i - 1].Offered? && log[i - 1].r.Result?)
  }

  lemma HandlingBells(sv: Service, resp: seq<Reply>, urgent: bool, m: Msg)
    ensures BellsFollow(Handling(sv, resp, urgent, m))
  {
    JudgeDecides(sv, m);
  }

  lemma BellsJoin(a: seq<Event>, b: seq<Event>)
    requires BellsFollow(a) && BellsFollow(b)
    ensures BellsFollow(a + b)
  {
    var c := a + b;
    forall i | 0 <= i < |c| && c[i].Bell?
      ensures i > 0 && (if c[i - 1].Took? then IsInit(c[i - 1].m) && IsOneWay(c[i - 1].m.raw)
                        else c[i - 1].Offered? && c[i - 1].r.Result?)
    {
      if i >= |a| {
        assert c[i] == b[i - |a|] && c[i - 1] == b[i - |a| - 1];
      }
    }
  }

  ghost predicate Orderly(sv: Service, log: seq<Event>) {
    Accounts(sv, log) && BellsFollow(log)
  }

  lemma OrderlyJoin(sv: Service, a: seq<Event>, b: seq<Event>)
    requires Orderly(sv, a) && Orderly(sv, b)
    ensures Orderly(sv, a + b)
  {
    AccountsJoin(sv, a, b);
    BellsJoin(a, b);
  }

  lemma ProcessOrderly(sv: Service, c: Chans, urgent: bool)
    ensures var p := Process(sv, c, urgent); Orderly(sv, p.log + FollowLog(p.result))
  {
    hide Judge, Accounts, BellsFollow, Accepts;
    var t := Turn(c);
    var p := Process(sv, c, urgent);
    TurnAccounts(sv, c);
    if Chan(t, urgent) == [] {
      ForeignAccounts(sv, Empty(urgent));
      OrderlyJoin(sv, TurnLog(c), [Empty(urgent)]);
      assert p.log + FollowLog(p.result) == TurnLog(c) + [Empty(urgent)];
    } else {
      var m := Chan(t, urgent)[0];
      HandlingAccounts(sv, t.resp, urgent, m);
      HandlingBells(sv, t.resp, urgent, m);
      OrderlyJoin(sv, TurnLog(c), Handling(sv, t.resp, urgent, m));
      assert p.log + FollowLog(p.result) == TurnLog(c) + Handling(sv, t.resp, urgent, m);
    }
  }

  lemma {:induction false} DrainOrderly(sv: Service, c: Chans, urgent: bool)
    ensures Orderly(sv, Drain(sv, c, urgent).log)
    decreases |c.script|, |Chan(c, urgent)|
  {
    var p := Process(sv, c, urgent);
    ProcessOrderly(sv, c, urgent);
    if !p.result.NoMessage? {
      DrainOrderly(sv, p.chans, urgent);
      OrderlyJoin(sv, p.log + FollowLog(p.result), Drain(sv, p.chans, urgent).log);
    } else {
      assert p.log + FollowLog(p.result) == p.log;
    }
  }

  lemma {:induction false} LifeOrderly(sv: Service, c: Chans, scripts: seq<seq<World>>)
    ensures Orderly(sv, Life(sv, c, scripts).log)
    decreases |scripts|
  {
    if scripts != [] {
      var c0 := c.(script := scripts[0]);
      var a := Drain(sv, c0, true);
      DrainOrderly(sv, c0, true);
      DrainOrderly(sv, a.chans, false);
      var p := Pass(sv, c0);
      OrderlyJoin(sv, a.log, Drain(sv, a.chans, false).log);
      LifeOrderly(sv, p.chans, scripts[1..]);
      OrderlyJoin(sv, p.log, Life(sv, p.chans, scripts[1..]).log);
    }
  }

  /** What others put into CH1. */
  function OthersIn(e: Event): seq<Reply> {
    if e.Outside? then e.w.completions else []
  }

  lemma SameSum(a: seq<Reply>, b: seq<Reply>, c: seq<Reply>, d: seq<Reply>,
                a': seq<Reply>, b': seq<Reply>, c': seq<Reply>, d': seq<Reply>)
    requires multiset(a) + multiset(b) == multiset(c) + multiset(d)
    requires multiset(a') + multiset(b') == multiset(c') + multiset(d')
    ensures multiset(a + a') + multiset(b + b') == multiset(c + c') + multiset(d + d')
  {
    calc {
      multiset(a + a') + multiset(b + b');
      (multiset(a) + multiset(b)) + (multiset(a') + multiset(b'));
      (multiset(c) + multiset(d)) + (multiset(c') + multiset(d'));
      multiset(c + c') + multiset(d + d');
    }
  }

  /** An offer is sent or fails; a completion is sent. */
  lemma {:induction false} OffersSplit(log: seq<Event>)
    ensures multiset(Collect(OfferIn, log)) + multiset(Collect(OthersIn, log))
         == multiset(Collect(SentIn, log)) + multiset(Collect(FailedIn, log))
  {
    if log != [] {
      var e, rest := log[0], log[1..];
      OffersSplit(rest);
      SameSum(OfferIn(e), OthersIn(e), SentIn(e), FailedIn(e),
              Collect(OfferIn, rest), Collect(OthersIn, rest), Collect(SentIn, rest), Collect(FailedIn, rest));
    }
  }

  /** Any life of the server, whatever the rest of the system does meanwhile: each request channel is
      consumed once and in order; the responses offered are, in order, one for each two-way request that
      is not deferred, with its rid, and none for any other; each of them either went into CH1 or is
      counted as failed; CH1 is delivered once and in order; the doorbells are those owed; and what is no
      request is passed on, in order. */
  lemma LifeAccounts(sv: Service, c: Chans, scripts: seq<seq<World>>)
    ensures var l := Life(sv, c, scripts);
            && (forall u :: Collect(TookOn(u), l.log) + Chan(l.chans, u) == Chan(c, u) + Collect(ArrivedOn(u), l.log))
            && Collect(OfferIn, l.log) == Owed(sv, Collect(TookAny, l.log))
            && multiset(Collect(OfferIn, l.log)) + multiset(Collect(OthersIn, l.log))
               == multiset(Collect(SentIn, l.log)) + multiset(Collect(FailedIn, l.log))
            && Suffix(c.resp + Collect(SentIn, l.log), l.chans.resp)
            && Bells(l.log) == Ringing(sv, Collect(TookAny, l.log))
            && Collect(PassedIn, l.log) == NotRequests(Collect(TookAny, l.log))
  {
    var l := Life(sv, c, scripts);
    LifeExplains(sv, c, scripts);
    LifeOrderly(sv, c, scripts);
    OffersSplit(l.log);
    forall u: bool ensures InOrder(c, l.log, l.chans, u) {
      if u {
        assert InOrder(c, l.log, l.chans, true);
      } else {
        assert InOrder(c, l.log, l.chans, false);
      }
    }
  }

  // ---- urgent first ----

  /** Only this channel is read, and it is observed empty exactly at the end. */
  predicate Reads(log: seq<Event>, urgent: bool) {
    && log != [] && log[|log| - 1] == Empty(urgent)
    && forall i :: 0 <= i < |log| ==> (log[i].Took? ==> log[i].urgent == urgent) && (log[i].Empty? ==> i == |log| - 1)
  }

  predicate OnlyTakes(log: seq<Event>, urgent: bool) {
    forall i :: 0 <= i < |log| ==> !log[i].Empty? && (log[i].Took? ==> log[i].urgent == urgent)
  }

  lemma ProcessReads(sv: Service, c: Chans, urgent: bool)
    ensures var p := Process(sv, c, urgent);
            if p.result.NoMessage? then Reads(p.log, urgent) else OnlyTakes(p.log + FollowLog(p.result), urgent)
  {
    var t := Turn(c);
    var p := Process(sv, c, urgent);
    if Chan(t, urgent) == [] {
      ReadsAfter(TurnLog(c), [Empty(urgent)], urgent);
    } else {
      var h := Handling(sv, t.resp, urgent, Chan(t, urgent)[0]);
      HandlingReads(sv, t.resp, urgent, Chan(t, urgent)[0]);
      assert p.log + FollowLog(p.result) == TurnLog(c) + h;
      OnlyTakesJoin(TurnLog(c), h, urgent);
    }
  }

  lemma HandlingReads(sv: Service, resp: seq<Reply>, urgent: bool, m: Msg)
    ensures OnlyTakes(Handling(sv, resp, urgent, m), urgent)
  {
  }

  lemma OnlyTakesJoin(a: seq<Event>, b: seq<Event>, urgent: bool)
    requires OnlyTakes(a, urgent) && OnlyTakes(b, urgent)
    ensures OnlyTakes(a + b, urgent)
  {
    forall i | 0 <= i < |a + b|
      ensures !(a + b)[i].Empty? && ((a + b)[i].Took? ==> (a + b)[i].urgent == urgent)
    {
      assert (a + b)[i] == if i < |a| then a[i] else b[i - |a|];
    }
  }

  lemma {:induction false} DrainReads(sv: Service, c: Chans, urgent: bool)
    ensures Reads(Drain(sv, c, urgent).log, urgent)
    decreases |c.script|, |Chan(c, urgent)|
  {
    var p := Process(sv, c, urgent);
    ProcessReads(sv, c, urgent);
    if !p.result.NoMessage? {
      DrainReads(sv, p.chans, urgent);
      ReadsAfter(p.log + FollowLog(p.result), Drain(sv, p.chans, urgent).log, urgent);
    }
  }

  lemma ReadsAfter(a: seq<Event>, b: seq<Event>, urgent: bool)
    requires Reads(b, urgent)
    requires OnlyTakes(a, urgent)
    ensures Reads(a + b, urgent)
  {
    var c := a + b;
    assert c[|c| - 1] == b[|b| - 1];
    forall i | 0 <= i < |c|
      ensures (c[i].Took? ==> c[i].urgent == urgent) && (c[i].Empty? ==> i == |c| - 1)
    {
      assert c[i] == if i < |a| then a[i] else b[i - |a|];
    }
  }

  predicate UrgentUntil(log: seq<Event>, k: nat) {
    && k < |log| && log[k] == Empty(true) && log[|log| - 1] == Empty(false)
    && (forall i :: 0 <= i < k ==> log[i].Took? ==> log[i].urgent)
    && (forall i :: k < i < |log| ==> log[i].Took? ==> !log[i].urgent)
  }

  lemma ReadsThen(a: seq<Event>, b: seq<Event>)
    requires Reads(a, true) && Reads(b, false)
    ensures UrgentUntil(a + b, |a| - 1)
  {
    var log := a + b;
    assert log[|log| - 1] == b[|b| - 1];
    forall i | |a| - 1 < i < |log|
      ensures log[i].Took? ==> !log[i].urgent
    {
      assert log[i] == b[i - |a|];
    }
  }

  /** In a pass URGENT is observed empty once; every urgent message of the pass is taken before that,
      every normal one after it, and then REQ is observed empty. */
  lemma UrgentFirst(sv: Service, c: Chans)
    ensures exists k: nat :: UrgentUntil(Pass(sv, c).log, k)
  {
    var a := Drain(sv, c, true);
    DrainReads(sv, c, true);
    DrainReads(sv, a.chans, false);
    ReadsThen(a.log, Drain(sv, a.chans, false).log);
    assert UrgentUntil(Pass(sv, c).log, |a.log| - 1);
  }

  // ---- what a pass reports ----

  function HandledIn(rs: seq<ProcessResult>): nat {
    if rs == [] then 0 else (if rs[0].Handled? then 1 else 0) + HandledIn(rs[1..])
  }

  lemma {:induction false} HandledAppend(a: seq<ProcessResult>, b: seq<ProcessResult>)
    ensures HandledIn(a + b) == HandledIn(a) + HandledIn(b)
  {
    if a == [] {
      assert a + b == b;
    } else {
      assert (a + b)[1..] == a[1..] + b;
      HandledAppend(a[1..], b);
    }
  }

  /** The results are the verdicts on the messages taken. */
  predicate Verdicts(sv: Service, log: seq<Event>, rs: seq<ProcessResult>) {
    rs == ResultsOf(sv, Collect(TookAny, log))
  }

  function ResultsOf(sv: Service, ms: seq<Msg>): (rs: seq<ProcessResult>)
    ensures |rs| == |ms| && forall i :: 0 <= i < |ms| ==> rs[i] == Judge(sv, ms[i]).result
  {
    if ms == [] then [] else [Judge(sv, ms[0]).result] + ResultsOf(sv, ms[1..])
  }

  lemma VerdictsJoin(sv: Service, a: seq<Event>, rs: seq<ProcessResult>, b: seq<Event>, rs': seq<ProcessResult>)
    requires Verdicts(sv, a, rs) && Verdicts(sv, b, rs')
    ensures Verdicts(sv, a + b, rs + rs')
  {
    CollectAppend(TookAny, a, b);
    ResultsAppend(sv, Collect(TookAny, a), Collect(TookAny, b));
  }

  lemma {:induction false} ResultsAppend(sv: Service, a: seq<Msg>, b: seq<Msg>)
    ensures ResultsOf(sv, a + b) == ResultsOf(sv, a) + ResultsOf(sv, b)
  {
    assert forall i :: 0 <= i < |b| ==> (a + b)[|a| + i] == b[i];
  }

  lemma TurnTakesNothing(c: Chans)
    ensures Collect(TookAny, TurnLog(c)) == []
  {
    if c.script != [] {
      CollectOne(TookAny, Outside(c.script[0]));
    }
  }

  lemma HandlingVerdict(sv: Service, resp: seq<Reply>, urgent: bool, m: Msg)
    ensures Collect(TookAny, Handling(sv, resp, urgent, m)) == [m] && ResultsOf(sv, [m]) == [Judge(sv, m).result]
  {
    HandlingCollects(TookAny, sv, resp, urgent, m);
  }

  lemma ProcessVerdict(sv: Service, c: Chans, urgent: bool)
    ensures var p := Process(sv, c, urgent);
            Verdicts(sv, p.log + FollowLog(p.result), if p.result.NoMessage? then [] else [p.result])
  {
    hide Judge;
    var t := Turn(c);
    var p := Process(sv, c, urgent);
    TurnTakesNothing(c);
    if Chan(t, urgent) == [] {
      CollectOne(TookAny, Empty(urgent));
      CollectAppend(TookAny, TurnLog(c), [Empty(urgent)]);
      assert p.log + FollowLog(p.result) == p.log;
    } else {
      var m := Chan(t, urgent)[0];
      HandlingVerdict(sv, t.resp, urgent, m);
      CollectAppend(TookAny, TurnLog(c), Handling(sv, t.resp, urgent, m));
      assert p.log + FollowLog(p.result) == TurnLog(c) + Handling(sv, t.resp, urgent, m);
    }
  }

  lemma {:induction false} DrainVerdicts(sv: Service, c: Chans, urgent: bool)
    ensures Verdicts(sv, Drain(sv, c, urgent).log, Drain(sv, c, urgent).results)
    decreases |c.script|, |Chan(c, urgent)|
  {
    var p := Process(sv, c, urgent);
    ProcessVerdict(sv, c, urgent);
    if p.result.NoMessage? {
      assert p.log + FollowLog(p.result) == p.log;
    } else {
      DrainVerdicts(sv, p.chans, urgent);
      var d := Drain(sv, p.chans, urgent);
      VerdictsJoin(sv, p.log + FollowLog(p.result), [p.result], d.log, d.results);
    }
  }

  /** What process_all counts: a request that is deferred, or has a result that fits, or is one-way and
      done. Left out are messages that are no request, and requests that fail. */
  predicate Serviced(sv: Service, m: Msg) {
    m.Call? && (IsDeferred(m) || ResultOf(sv, m).Some? || (IsOneWay(m.raw) && m.outcome.Silent? && !IsInit(m)))
  }

  lemma HandledIsServiced(sv: Service, m: Msg)
    ensures Judge(sv, m).result.Handled? <==> Serviced(sv, m)
  {
    JudgeDecides(sv, m);
  }

  function ServicedIn(sv: Service, ms: seq<Msg>): (n: nat)
    ensures n <= |ms|
  {
    if ms == [] then 0 else (if Serviced(sv, ms[0]) then 1 else 0) + ServicedIn(sv, ms[1..])
  }

  lemma {:induction false} HandledCounts(sv: Service, ms: seq<Msg>)
    ensures HandledIn(ResultsOf(sv, ms)) == ServicedIn(sv, ms)
  {
    if ms != [] {
      HandledIsServiced(sv, ms[0]);
      assert ResultsOf(sv, ms)[1..] == ResultsOf(sv, ms[1..]);
      HandledCounts(sv, ms[1..]);
    }
  }

  lemma {:induction false} ServicedAll(sv: Service, ms: seq<Msg>)
    ensures ServicedIn(sv, ms) == |ms| <==> forall m :: m in ms ==> Serviced(sv, m)
    ensures ServicedIn(sv, ms) == 0 <==> forall m :: m in ms ==> !Serviced(sv, m)
  {
    if ms != [] {
      ServicedAll(sv, ms[1..]);
      assert forall m :: m in ms <==> m == ms[0] || m in ms[1..];
    }
  }

  /** process_all reports the serviced messages of those it takes (drain_all reports them all): as many
      as it took exactly when all are serviced, and none, so that its caller starts to spin, exactly when
      none is, however many it took. */
  lemma CountDecides(sv: Service, c: Chans)
    ensures var p := Pass(sv, c);
            var ms := Collect(TookAny, p.log);
            && |p.results| == |ms| && HandledIn(p.results) == ServicedIn(sv, ms)
            && (HandledIn(p.results) == |ms| <==> forall m :: m in ms ==> Serviced(sv, m))
            && (HandledIn(p.results) == 0 <==> forall m :: m in ms ==> !Serviced(sv, m))
  {
    var a := Drain(sv, c, true);
    var b := Drain(sv, a.chans, false);
    DrainVerdicts(sv, c, true);
    DrainVerdicts(sv, a.chans, false);
    VerdictsJoin(sv, a.log, a.results, b.log, b.results);
    var ms := Collect(TookAny, a.log + b.log);
    HandledCounts(sv, ms);
    ServicedAll(sv, ms);
  }

  lemma {:induction false} QuietDrain(sv: Service, c: Chans, urgent: bool)
    requires c.script == []
    ensures var d := Drain(sv, c, urgent);
            && Collect(TookAny, d.log) == Chan(c, urgent) && d.chans.script == []
            && Chan(d.chans, !urgent) == Chan(c, !urgent)
    decreases |Chan(c, urgent)|
  {
    hide Process, Judge;
    var p := Process(sv, c, urgent);
    if Chan(c, urgent) == [] {
      QuietEmpty(sv, c, urgent);
    } else {
      QuietProcess(sv, c, urgent);
      QuietDrain(sv, p.chans, urgent);
      CollectAppend(TookAny, p.log + FollowLog(p.result), Drain(sv, p.chans, urgent).log);
      assert Chan(c, urgent) == [Chan(c, urgent)[0]] + Chan(p.chans, urgent);
    }
  }

  lemma QuietEmpty(sv: Service, c: Chans, urgent: bool)
    requires c.script == [] && Chan(c, urgent) == []
    ensures Process(sv, c, urgent) == Processed(c, [Empty(urgent)], NoMessage)
    ensures Collect(TookAny, [Empty(urgent)]) == []
  {
    CollectOne(TookAny, Empty(urgent));
    assert TurnLog(c) + [Empty(urgent)] == [Empty(urgent)];
  }

  lemma QuietProcess(sv: Service, c: Chans, urgent: bool)
    requires c.script == [] && Chan(c, urgent) != []
    ensures var p := Process(sv, c, urgent);
            && !p.result.NoMessage? && p.chans.script == [] && Chan(p.chans, urgent) == Chan(c, urgent)[1..]
            && Chan(p.chans, !urgent) == Chan(c, !urgent)
            && Collect(TookAny, p.log + FollowLog(p.result)) == [Chan(c, urgent)[0]]
  {
    hide Judge;
    var p, m := Process(sv, c, urgent), Chan(c, urgent)[0];
    HandlingVerdict(sv, c.resp, urgent, m);
    assert p.log + FollowLog(p.result) == Handling(sv, c.resp, urgent, m);
  }

  /** When nothing arrives during the pass it takes what waited, so that the two counts can be told apart
      beforehand: process_all reports everything consumed exactly when all that waits is serviced. */
  lemma QuietCountDecides(sv: Service, c: Chans)
    requires c.script == []
    ensures var p := Pass(sv, c);
            && Collect(TookAny, p.log) == c.urgent + c.req && |p.results| == |c.urgent| + |c.req|
            && (HandledIn(p.results) == |p.results| <==> forall m :: m in c.urgent || m in c.req ==> Serviced(sv, m))
            && (HandledIn(p.results) == 0 <==> forall m :: m in c.urgent || m in c.req ==> !Serviced(sv, m))
  {
    var a := Drain(sv, c, true);
    QuietDrain(sv, c, true);
    QuietDrain(sv, a.chans, false);
    CollectAppend(TookAny, a.log, Drain(sv, a.chans, false).log);
    CountDecides(sv, c);
    assert forall m :: m in c.urgent + c.req <==> m in c.urgent || m in c.req;
  }

  /** One request with bad arguments is consumed, and process_all returns 0. */
  lemma CountMissed(sv: Service, rid: u64)
    ensures var m := Call(1, rid, BadArgs);
            var p := Pass(sv, Chans([m], [], [], []));
            Collect(TookAny, p.log) == [m] && HandledIn(p.results) == 0
  {
    var m := Call(1, rid, BadArgs);
    FlagsRead(1, false, false);
    assert !Serviced(sv, m);
    QuietCountDecides(sv, Chans([m], [], [], []));
  }
}
