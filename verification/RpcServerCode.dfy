/** The server's loops over its channels, proved to do what RpcServer's functions say. */
module RpcServerCode {
  import opened Basics
  import opened RpcServer
  import Framing

  /** Drain interrupted after some messages: log and results so far, and c where it goes on. */
  ghost predicate Continues(sv: Service, all: Drained, c: Chans, urgent: bool,
                            log: seq<Event>, rs: seq<ProcessResult>)
  {
    var d := Drain(sv, c, urgent);
    all == Drained(d.chans, log + d.log, rs + d.results)
  }

  lemma Begins(sv: Service, c: Chans, urgent: bool)
    ensures Continues(sv, Drain(sv, c, urgent), c, urgent, [], [])
    ensures HandledIn([]) == 0
  {
    var d := Drain(sv, c, urgent);
    assert [] + d.log == d.log && [] + d.results == d.results;
  }

  lemma ContinuesOn(sv: Service, all: Drained, c: Chans, urgent: bool, log: seq<Event>, rs: seq<ProcessResult>)
    requires Continues(sv, all, c, urgent, log, rs)
    ensures var p := Process(sv, c, urgent);
            if p.result.NoMessage? then all == Drained(p.chans, log + p.log, rs)
            else Continues(sv, all, p.chans, urgent, log + p.log + FollowLog(p.result), rs + [p.result])
  {
    var p := Process(sv, c, urgent);
    var d := Drain(sv, p.chans, urgent);
    if p.result.NoMessage? {
      assert rs + [] == rs;
    } else {
      assert log + (p.log + FollowLog(p.result) + d.log) == log + p.log + FollowLog(p.result) + d.log;
      assert rs + ([p.result] + d.results) == rs + [p.result] + d.results;
    }
  }

  lemma Shrinks(sv: Service, c: Chans, urgent: bool)
    ensures var p := Process(sv, c, urgent);
            !p.result.NoMessage? ==>
              |p.chans.script| < |c.script|
              || (|p.chans.script| == |c.script| && |Chan(p.chans, urgent)| < |Chan(c, urgent)|)
  {
  }

  lemma HandledOne(rs: seq<ProcessResult>, r: ProcessResult)
    ensures HandledIn(rs + [r]) == HandledIn(rs) + if r.Handled? then 1 else 0
  {
    HandledAppend(rs, [r]);
    assert [r][1..] == [];
    assert HandledIn([r][1..]) == 0;
  }

  lemma CountsAppend(a: seq<Event>, b: seq<Event>)
    ensures Fails(a + b) == Fails(a) + Fails(b) && Bells(a + b) == Bells(a) + Bells(b)
  {
    CollectAppend(FailedIn, a, b);
    CollectAppend(BellIn, a, b);
  }

  lemma CountsOne(e: Event)
    ensures Fails([e]) == (if e.Offered? && !e.accepted then 1 else 0) && Bells([e]) == (if e.Bell? then 1 else 0)
  {
    CollectOne(FailedIn, e);
    CollectOne(BellIn, e);
  }

  /** A pass is its two drains, and so is its part of the log. */
  lemma PassIs(sv: Service, c: Chans, log: seq<Event>)
    ensures var a := Drain(sv, c, true);
            var b := Drain(sv, a.chans, false);
            && Pass(sv, c) == Drained(b.chans, a.log + b.log, a.results + b.results)
            && log + a.log + b.log == log + (a.log + b.log)
  {
    hide Drain;
  }

  /** fails is RESP_SEND_FAILS, bells what on_notify or send_notify_ipi has been called, log what happened. */
  class Server {
    const sv: Service
    var req: seq<Msg>
    var urgent: seq<Msg>
    var resp: seq<Reply>
    var script: seq<World>
    var fails: nat
    var bells: nat
    ghost var log: seq<Event>

    ghost function Abstract(): Chans
      reads this
    {
      Chans(req, urgent, resp, script)
    }

    ghost predicate Valid()
      reads this
    {
      fails == Fails(log) && bells == Bells(log)
    }

    constructor (sv: Service, c: Chans)
      ensures Valid() && this.sv == sv && Abstract() == c && log == []
    {
      this.sv := sv;
      req, urgent, resp, script := c.req, c.urgent, c.resp, c.script;
      fails, bells, log := 0, 0, [];
    }

    ghost method Note(e: Event)
      modifies this`log
      ensures log == old(log) + [e]
      ensures Fails(log) == old(Fails(log)) + (if e.Offered? && !e.accepted then 1 else 0)
      ensures Bells(log) == old(Bells(log)) + (if e.Bell? then 1 else 0)
    {
      CountsAppend(log, [e]);
      CountsOne(e);
      log := log + [e];
    }

    /** The rest of the system acts. */
    method Await()
      requires Valid()
      modifies this`req, this`urgent, this`resp, this`script, this`log
      ensures Valid() && Abstract() == Turn(old(Abstract())) && log == old(log) + TurnLog(old(Abstract()))
    {
      if script != [] {
        var w := script[0];
        Note(Outside(w));
        req, urgent := req + w.req, urgent + w.urgent;
        resp := resp[Min(w.taken, |resp|)..] + w.completions;
        script := script[1..];
      }
    }

    method TryRecv(urgent: bool) returns (m: Option<Msg>)
      requires Valid()
      modifies this`req, this`urgent, this`log
      ensures Valid()
      ensures var t := old(Abstract());
              if Chan(t, urgent) == [] then m.None? && Abstract() == t && log == old(log) + [Empty(urgent)]
              else m == Some(Chan(t, urgent)[0]) && Abstract() == WithoutHead(t, urgent)
                   && log == old(log) + [Took(urgent, Chan(t, urgent)[0])]
    {
      var q := if urgent then this.urgent else req;
      if q == [] {
        Note(Empty(urgent));
        return None;
      }
      Note(Took(urgent, q[0]));
      if urgent {
        this.urgent := q[1..];
      } else {
        req := q[1..];
      }
      return Some(q[0]);
    }

    /** try_send, and the count of failures. */
    method TrySend(r: Reply)
      requires Valid()
      modifies this`resp, this`fails, this`log
      ensures Valid() && Abstract() == old(Abstract()).(resp := Offer(sv, old(resp), Some(r)))
      ensures log == old(log) + OfferLog(sv, old(resp), Some(r))
    {
      Note(Offered(r, Accepts(sv, resp, r)));
      if Accepts(sv, resp, r) {
        resp := resp + [r];
      } else {
        fails := fails + 1;
      }
    }

    /** From the request taken to the verdict on it. */
    method Answer(m: Msg) returns (r: ProcessResult)
      requires Valid()
      modifies this`resp, this`fails, this`log
      ensures Valid() && r == Judge(sv, m).result
      ensures Abstract() == old(Abstract()).(resp := Offer(sv, old(resp), Judge(sv, m).reply))
      ensures log == old(log) + OfferLog(sv, old(resp), Judge(sv, m).reply)
    {
      if m.NotRequest? {
        return NotRpc(m);
      }
      var oneWay, notify, mid := IsOneWay(m.raw), WantsNotify(m.raw), StripFlags(m.raw);
      var out: Option<seq<byte>> := None;
      if mid == METHOD_INIT {
        out := Some(sv.descriptor);
      } else {
        match m.outcome
        case Deferred => return Handled(Quiet);
        case Silent =>
          if oneWay {
            return Handled(OneWay);
          }
        case BadArgs =>
        case Value(data) => out := Some(data);
      }
      if out.None? || |out.value| > Framing.RESPONSE_DATA_MAX {
        if !oneWay {
          TrySend(Poison(m.rid));
        }
        return Unhandled(mid);
      }
      if !oneWay {
        TrySend(Result(m.rid, out.value));
      }
      return Handled(if oneWay && mid != METHOD_INIT then OneWay else if notify then Notify else Quiet);
    }

    method ProcessChannel(urgent: bool) returns (r: ProcessResult)
      requires Valid()
      modifies this`req, this`urgent, this`resp, this`script, this`fails, this`log
      ensures Valid()
      ensures var p := Process(sv, old(Abstract()), urgent);
              r == p.result && Abstract() == p.chans && log == old(log) + p.log
    {
      Await();
      var m := TryRecv(urgent);
      if m.None? {
        return NoMessage;
      }
      r := Answer(m.value);
    }

    /** What follows a result: a doorbell, or the callback for what is no request. */
    method Follow(r: ProcessResult)
      requires Valid()
      modifies this`bells, this`log
      ensures Valid() && log == old(log) + FollowLog(r)
    {
      if r == Handled(Notify) {
        Note(Bell);
        bells := bells + 1;
      } else if r.NotRpc? {
        Note(Other(r.m));
      }
    }

    /** One message and what follows it; seen and got are the drain's log and results so far. */
    method Step(urgent: bool, ghost all: Drained, ghost seen: seq<Event>, ghost got: seq<ProcessResult>)
      returns (r: ProcessResult, ghost seen': seq<Event>, ghost got': seq<ProcessResult>)
      requires Valid() && Continues(sv, all, Abstract(), urgent, seen, got)
      modifies this
      ensures Valid()
      ensures !r.NoMessage? ==>
                |script| < old(|script|)
                || (|script| == old(|script|) && |Chan(Abstract(), urgent)| < old(|Chan(Abstract(), urgent)|))
      ensures seen <= seen' && log == old(log) + seen'[|seen|..]
      ensures if r.NoMessage? then all.chans == Abstract() && all.log == seen' && all.results == got' == got
              else Continues(sv, all, Abstract(), urgent, seen', got') && got' == got + [r]
      ensures HandledIn(got') == HandledIn(got) + if r.Handled? then 1 else 0
    {
      hide Drain, Process, Continues, HandledIn;
      ghost var p := Process(sv, Abstract(), urgent);
      ContinuesOn(sv, all, Abstract(), urgent, seen, got);
      Shrinks(sv, Abstract(), urgent);
      HandledOne(got, p.result);
      r := ProcessChannel(urgent);
      Follow(r);
      seen', got' := seen + p.log + FollowLog(r), if r.NoMessage? then got else got + [r];
      assert seen'[|seen|..] == p.log + FollowLog(r);
      if r.NoMessage? {
        assert p.log + FollowLog(r) == p.log && seen + p.log + FollowLog(r) == seen + p.log;
      }
    }

    /** A loop of process_all: counts what was handled. */
    method Loop(urgent: bool) returns (count: nat, ghost rs: seq<ProcessResult>)
      requires Valid()
      modifies this
      ensures Valid() && count == HandledIn(rs)
      ensures var d := Drain(sv, old(Abstract()), urgent);
              Abstract() == d.chans && log == old(log) + d.log && rs == d.results
    {
      hide *;
      ghost var all := Drain(sv, Abstract(), urgent);
      ghost var seen: seq<Event>;
      var r;
      Begins(sv, Abstract(), urgent);
      seen, count, rs := [], 0, [];
      while true
        invariant Valid() && log == old(log) + seen && count == HandledIn(rs)
        invariant Continues(sv, all, Abstract(), urgent, seen, rs)
        decreases |script|, |Chan(Abstract(), urgent)|
      {
        r, seen, rs := Step(urgent, all, seen, rs);
        if r.NoMessage? {
          return;
        }
        if r.Handled? {
          count := count + 1;
        }
      }
    }

    /** process_all. */
    method ProcessAll() returns (count: nat, ghost rs: seq<ProcessResult>)
      requires Valid()
      modifies this
      ensures Valid() && count == HandledIn(rs)
      ensures var p := Pass(sv, old(Abstract()));
              Abstract() == p.chans && log == old(log) + p.log && rs == p.results
    {
      hide *;
      PassIs(sv, Abstract(), log);
      var n, first := Loop(true);
      var k, second := Loop(false);
      HandledAppend(first, second);
      count, rs := n + k, first + second;
    }

    /** A loop of drain_all: counts what was consumed. */
    method DrainLoop(urgent: bool) returns (count: nat, ghost rs: seq<ProcessResult>)
      requires Valid()
      modifies this
      ensures Valid() && count == |rs|
      ensures var d := Drain(sv, old(Abstract()), urgent);
              Abstract() == d.chans && log == old(log) + d.log && rs == d.results
    {
      hide *;
      ghost var all := Drain(sv, Abstract(), urgent);
      ghost var seen: seq<Event>;
      var r;
      Begins(sv, Abstract(), urgent);
      r, seen, rs := Step(urgent, all, [], []);
      count := 0;
      while !r.NoMessage?
        invariant Valid() && log == old(log) + seen && count + (if r.NoMessage? then 0 else 1) == |rs|
        invariant if r.NoMessage? then all == Drained(Abstract(), seen, rs)
                  else Continues(sv, all, Abstract(), urgent, seen, rs)
        decreases !r.NoMessage?, |script|, |Chan(Abstract(), urgent)|
      {
        count := count + 1;
        r, seen, rs := Step(urgent, all, seen, rs);
      }
    }

    /** drain_all. */
    method DrainAll() returns (count: nat, ghost rs: seq<ProcessResult>)
      requires Valid()
      modifies this
      ensures Valid() && count == |rs|
      ensures var p := Pass(sv, old(Abstract()));
              Abstract() == p.chans && log == old(log) + p.log && rs == p.results
    {
      hide *;
      PassIs(sv, Abstract(), log);
      var n, first := DrainLoop(true);
      var k, second := DrainLoop(false);
      count, rs := n + k, first + second;
    }
  }
}
