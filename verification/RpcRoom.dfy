/** When CH1 takes a response: judged by the bytes that the responses in it and the new one put on the wire.
    Main results: an offered response is appended exactly when all of them together fit the ring's blocks
    (RoomDecides); over any life of the server CH1 is exactly what it was, less what was taken off, plus what
    was put in, and a response is counted as failed only when CH1 was too full for it (RefusedOnlyWhenFull);
    an empty ring of eight blocks takes any response (EmptyRingAnswers). */
module RpcRoom {
  import opened Basics
  import Framing
  import opened Rpc
  import opened RpcClient
  import opened RpcServer

  /** Bytes of all the blocks of these messages. */
  function Octets(ms: seq<Incoming>): nat {
    if ms == [] then 0 else (if ms[0].Good? then |ms[0].w.payload| else 0) + Octets(ms[1..])
  }

  /** A reply on the wire, over blocks that held 0xFF. */
  function MessageOf(r: Reply): Incoming {
    Good(OnWire(r, if r.Result? then Framing.Filled(Framing.Slack(8 + |r.data|)) else []))
  }

  function Messages(rs: seq<Reply>): (ms: seq<Incoming>)
    ensures |ms| == |rs|
  {
    if rs == [] then [] else [MessageOf(rs[0])] + Messages(rs[1..])
  }

  /** Whatever its blocks held before, a reply takes this many. */
  lemma WireLength(m: Incoming, r: Reply)
    requires CarriesOne(m, r)
    ensures m.Good? && |m.w.payload| == Blocks(r) * Framing.PAYLOAD_SIZE && |m.w.payload| == Octets([MessageOf(r)])
  {
    assert [MessageOf(r)][1..] == [];
    assert Octets([MessageOf(r)][1..]) == 0;
  }

  lemma {:induction false} WiresLength(ms: seq<Incoming>, rs: seq<Reply>)
    requires Carries(ms, rs)
    ensures Octets(ms) == Used(rs) * Framing.PAYLOAD_SIZE && Octets(ms) == Octets(Messages(rs))
  {
    if ms != [] {
      WireLength(ms[0], rs[0]);
      assert Octets([MessageOf(rs[0])]) == |MessageOf(rs[0]).w.payload| by {
        assert [MessageOf(rs[0])][1..] == [];
        assert Octets([MessageOf(rs[0])][1..]) == 0;
      }
      WiresLength(ms[1..], rs[1..]);
      assert Messages(rs)[1..] == Messages(rs[1..]);
    }
  }

  /** CH1, whose messages are ms, takes the message m exactly when the bytes of their blocks fit the ring. */
  lemma RoomDecides(sv: Service, resp: seq<Reply>, r: Reply, ms: seq<Incoming>, m: Incoming)
    requires Carries(ms, resp) && CarriesOne(m, r)
    ensures m.Good?
    ensures var room := Octets(ms) + |m.w.payload| <= Framing.PAYLOAD_SIZE * sv.capacity;
            && Offer(sv, resp, Some(r)) == (if room then resp + [r] else resp)
            && OfferLog(sv, resp, Some(r)) == [Offered(r, room)]
  {
    WiresLength(ms, resp);
    WireLength(m, r);
  }

  /** The same on the replies: the bytes they put on the wire. */
  predicate Room(sv: Service, resp: seq<Reply>, r: Reply) {
    Octets(Messages(resp)) + Octets([MessageOf(r)]) <= Framing.PAYLOAD_SIZE * sv.capacity
  }

  lemma {:induction false} MessagesCarry(rs: seq<Reply>)
    ensures Carries(Messages(rs), rs)
  {
    hide CarriesOne, MessageOf;
    if rs != [] {
      MessagesCarry(rs[1..]);
      MessageCarries(rs[0]);
      assert forall i :: 1 <= i < |rs| ==> Messages(rs)[i] == Messages(rs[1..])[i - 1];
    }
  }

  lemma MessageCarries(r: Reply)
    ensures CarriesOne(MessageOf(r), r)
  {
    var stale := if r.Result? then Framing.Filled(Framing.Slack(8 + |r.data|)) else [];
    assert (r.Result? ==> |stale| == Framing.Slack(8 + |r.data|)) && MessageOf(r) == Good(OnWire(r, stale));
  }

  lemma RoomIsAccepts(sv: Service, resp: seq<Reply>, r: Reply)
    ensures Accepts(sv, resp, r) <==> Room(sv, resp, r)
  {
    MessagesCarry(resp);
    MessageCarries(r);
    WireLength(MessageOf(r), r);
    WiresLength(Messages(resp), resp);
  }

  // ---- over a life of the server ----

  function After(resp: seq<Reply>, e: Event): seq<Reply> {
    match e
    case Outside(w) => resp[Min(w.taken, |resp|)..] + w.completions
    case Offered(r, accepted) => if accepted then resp + [r] else resp
    case _ => resp
  }

  /** The log takes CH1 from resp to resp', and a response is accepted in it exactly when there is room. */
  ghost predicate Explained(sv: Service, resp: seq<Reply>, log: seq<Event>, resp': seq<Reply>)
    decreases |log|
  {
    if log == [] then resp' == resp
    else
      && (log[0].Offered? ==> (log[0].accepted <==> Room(sv, resp, log[0].r)))
      && Explained(sv, After(resp, log[0]), log[1..], resp')
  }

  lemma {:induction false} ExplainedJoins(sv: Service, resp: seq<Reply>, a: seq<Event>, mid: seq<Reply>,
                                          b: seq<Event>, resp': seq<Reply>)
    requires Explained(sv, resp, a, mid) && Explained(sv, mid, b, resp')
    ensures Explained(sv, resp, a + b, resp')
    decreases |a|
  {
    if a == [] {
      assert a + b == b;
    } else {
      assert (a + b)[1..] == a[1..] + b;
      ExplainedJoins(sv, After(resp, a[0]), a[1..], mid, b, resp');
    }
  }

  lemma ExplainedOne(sv: Service, resp: seq<Reply>, e: Event)
    requires e.Offered? ==> (e.accepted <==> Room(sv, resp, e.r))
    ensures Explained(sv, resp, [e], After(resp, e))
  {
    assert [e][1..] == [];
    assert Explained(sv, After(resp, e), [e][1..], After(resp, e));
  }

  lemma TurnExplained(sv: Service, c: Chans)
    ensures Explained(sv, c.resp, TurnLog(c), Turn(c).resp)
  {
    if c.script != [] {
      ExplainedOne(sv, c.resp, Outside(c.script[0]));
    }
  }

  lemma OfferExplained(sv: Service, resp: seq<Reply>, r: Option<Reply>)
    ensures Explained(sv, resp, OfferLog(sv, resp, r), Offer(sv, resp, r))
  {
    if r.Some? {
      RoomIsAccepts(sv, resp, r.value);
      ExplainedOne(sv, resp, Offered(r.value, Accepts(sv, resp, r.value)));
    }
  }

  lemma FollowExplained(sv: Service, resp: seq<Reply>, r: ProcessResult)
    ensures Explained(sv, resp, FollowLog(r), resp)
  {
    if FollowLog(r) != [] {
      ExplainedOne(sv, resp, FollowLog(r)[0]);
    }
  }

  lemma ProcessExplained(sv: Service, c: Chans, urgent: bool)
    ensures var p := Process(sv, c, urgent);
            Explained(sv, c.resp, p.log + FollowLog(p.result), p.chans.resp)
  {
    hide Judge, FollowLog, OfferLog, Offer, Explained, Room;
    var t := Turn(c);
    var p := Process(sv, c, urgent);
    TurnExplained(sv, c);
    if Chan(t, urgent) == [] {
      ExplainedOne(sv, t.resp, Empty(urgent));
      ExplainedJoins(sv, c.resp, TurnLog(c), t.resp, [Empty(urgent)], t.resp);
    } else {
      var m := Chan(t, urgent)[0];
      var reply := Judge(sv, m).reply;
      ExplainedOne(sv, t.resp, Took(urgent, m));
      ExplainedJoins(sv, c.resp, TurnLog(c), t.resp, [Took(urgent, m)], t.resp);
      OfferExplained(sv, t.resp, reply);
      ExplainedJoins(sv, c.resp, TurnLog(c) + [Took(urgent, m)], t.resp, OfferLog(sv, t.resp, reply), p.chans.resp);
    }
    FollowExplained(sv, p.chans.resp, p.result);
    ExplainedJoins(sv, c.resp, p.log, p.chans.resp, FollowLog(p.result), p.chans.resp);
  }

  lemma {:induction false} DrainExplained(sv: Service, c: Chans, urgent: bool)
    ensures var d := Drain(sv, c, urgent); Explained(sv, c.resp, d.log, d.chans.resp)
    decreases |c.script|, |Chan(c, urgent)|
  {
    var p := Process(sv, c, urgent);
    ProcessExplained(sv, c, urgent);
    if p.result.NoMessage? {
      assert p.log + FollowLog(p.result) == p.log;
    } else {
      DrainExplained(sv, p.chans, urgent);
      var d := Drain(sv, p.chans, urgent);
      ExplainedJoins(sv, c.resp, p.log + FollowLog(p.result), p.chans.resp, d.log, d.chans.resp);
    }
  }

  /** Over any life of the server: CH1 ends as what it was, changed by what the log says went in and was
      taken off, and each response offered went in exactly when its blocks fitted behind those then in CH1. */
  lemma {:induction false} RefusedOnlyWhenFull(sv: Service, c: Chans, scripts: seq<seq<World>>)
    ensures var l := Life(sv, c, scripts); Explained(sv, c.resp, l.log, l.chans.resp)
    decreases |scripts|
  {
    if scripts != [] {
      var c0 := c.(script := scripts[0]);
      var a := Drain(sv, c0, true);
      var b := Drain(sv, a.chans, false);
      DrainExplained(sv, c0, true);
      DrainExplained(sv, a.chans, false);
      ExplainedJoins(sv, c.resp, a.log, a.chans.resp, b.log, b.chans.resp);
      RefusedOnlyWhenFull(sv, b.chans, scripts[1..]);
      var l := Life(sv, b.chans, scripts[1..]);
      ExplainedJoins(sv, c.resp, a.log + b.log, b.chans.resp, l.log, l.chans.resp);
    }
  }

  /** A two-way request that is not deferred and finds CH1 empty: its response, and nothing else, is then
      in CH1, and no failure is counted. */
  lemma EmptyRingAnswers(sv: Service, c: Chans, urgent: bool)
    requires sv.capacity >= 8 && Turn(c).resp == [] && Chan(Turn(c), urgent) != []
    requires var m := Chan(Turn(c), urgent)[0]; TwoWay(m) && !IsDeferred(m)
    ensures var p := Process(sv, c, urgent);
            p.chans.resp == [Due(sv, Chan(Turn(c), urgent)[0])] && Fails(p.log) == 0
  {
    var m := Chan(Turn(c), urgent)[0];
    var due := Due(sv, m);
    JudgeDecides(sv, m);
    MessagesCarry([]);
    MessageCarries(due);
    RoomDecides(sv, [], due, Messages([]), MessageOf(due));
    OneReplyFits(due);
    NoFailures(sv, c, urgent);
  }

  lemma OneReplyFits(r: Reply)
    ensures |MessageOf(r).w.payload| <= 8 * Framing.PAYLOAD_SIZE
  {
    MessageCarries(r);
    WireLength(MessageOf(r), r);
  }

  lemma NoFailures(sv: Service, c: Chans, urgent: bool)
    requires Chan(Turn(c), urgent) != []
    requires var m := Chan(Turn(c), urgent)[0];
             m.Call? && OfferLog(sv, Turn(c).resp, Judge(sv, m).reply) == [Offered(Due(sv, m), true)]
    ensures Fails(Process(sv, c, urgent).log) == 0
  {
    hide Judge, Due;
    var t := Turn(c);
    var m := Chan(t, urgent)[0];
    var offer := Offered(Due(sv, m), true);
    if c.script != [] {
      CollectOne(FailedIn, Outside(c.script[0]));
    }
    CollectOne(FailedIn, Took(urgent, m));
    CollectOne(FailedIn, offer);
    CollectAppend(FailedIn, TurnLog(c), [Took(urgent, m)]);
    CollectAppend(FailedIn, TurnLog(c) + [Took(urgent, m)], [offer]);
  }
}
