/** Server and client together: what the server put into CH1 is what the client's poll reads out of it.
    Main result: while no response fails to be sent and nobody else answers, the client drains, in order,
    the answers to the two-way requests the server took (AnswersArrive). */
module Rpc {
  import opened Basics
  import Framing
  import opened RpcClient
  import opened RpcServer

  /** A reply in CH1's blocks, over whatever they held before. */
  function OnWire(r: Reply, stale: seq<byte>): Message
    requires r.Result? ==> |stale| == Framing.Slack(8 + |r.data|)
  {
    match r
    case Poison(rid) => Framing.Poison(rid)
    case Result(rid, data) => Framing.Answer(rid, data, stale)
  }

  ghost predicate CarriesOne(m: Incoming, r: Reply) {
    exists stale: seq<byte> :: (r.Result? ==> |stale| == Framing.Slack(8 + |r.data|)) && m == Good(OnWire(r, stale))
  }

  ghost predicate Carries(ms: seq<Incoming>, rs: seq<Reply>) {
    |ms| == |rs| && forall i :: 0 <= i < |ms| ==> CarriesOne(ms[i], rs[i])
  }

  /** The entry is read from the reply: same rid, and the result, or the result and a stale tail. */
  predicate ReadFrom(e: Framing.Entry, r: Reply) {
    && e.rid == r.rid
    && (r.Result? ==> if 8 + |r.data| <= Framing.PAYLOAD_SIZE then r.data <= e.data else r.data == e.data)
    && (r.Poison? ==> e.data == Framing.Filled(Framing.PAYLOAD_SIZE - 8))
  }

  lemma ReplyReads(m: Incoming, r: Reply)
    requires CarriesOne(m, r) && (r.Result? ==> |r.data| <= Framing.RESPONSE_DATA_MAX)
    ensures m.Good? && Framing.EntryOf(m.w).Some? && ReadFrom(Framing.EntryOf(m.w).value, r)
  {
    var stale: seq<byte> :| (r.Result? ==> |stale| == Framing.Slack(8 + |r.data|)) && m == Good(OnWire(r, stale));
    if r.Result? {
      Framing.AnswerReads(r.rid, r.data, stale);
    } else {
      Framing.SplitSent(r.rid, Framing.Filled(Framing.PAYLOAD_SIZE - 8));
    }
  }

  predicate AllFit(rs: seq<Reply>) {
    forall i :: 0 <= i < |rs| ==> rs[i].Result? ==> |rs[i].data| <= Framing.RESPONSE_DATA_MAX
  }

  lemma {:induction false} RepliesRead(ms: seq<Incoming>, rs: seq<Reply>)
    requires Carries(ms, rs) && AllFit(rs)
    ensures |EntriesOf(ms)| == |rs| && forall i :: 0 <= i < |rs| ==> ReadFrom(EntriesOf(ms)[i], rs[i])
  {
    if ms != [] {
      ReplyReads(ms[0], rs[0]);
      RepliesRead(ms[1..], rs[1..]);
      assert EntriesOf(ms) == [Framing.EntryOf(ms[0].w).value] + EntriesOf(ms[1..]);
    }
  }

  lemma {:induction false} OwedFits(sv: Service, ms: seq<Msg>)
    ensures AllFit(Owed(sv, ms))
  {
    if ms != [] {
      OwedFits(sv, ms[1..]);
    }
  }

  lemma {:induction false} AllSent(log: seq<Event>)
    requires Collect(FailedIn, log) == [] && Collect(OthersIn, log) == []
    ensures Collect(SentIn, log) == Collect(OfferIn, log)
  {
    if log != [] {
      assert FailedIn(log[0]) == [] && OthersIn(log[0]) == [];
      AllSent(log[1..]);
    }
  }

  lemma DrainedRead(sv: Service, log: seq<Event>, h: History)
    requires Collect(OfferIn, log) == Owed(sv, Collect(TookAny, log)) && RpcClient.InOrder(h)
    requires Collect(FailedIn, log) == [] && Collect(OthersIn, log) == [] && Carries(h.arrived, Collect(SentIn, log))
    ensures var owed := Owed(sv, Collect(TookAny, log));
            |h.drained| <= |owed| && forall i :: 0 <= i < |h.drained| ==> ReadFrom(h.drained[i], owed[i])
  {
    AllSent(log);
    OwedFits(sv, Collect(TookAny, log));
    var k := |h.arrived| - |h.core.channel|;
    RepliesRead(h.arrived[..k], Owed(sv, Collect(TookAny, log))[..k]);
  }

  /** A life of the server whose responses all found room and are CH1's only content, and a client that
      polls CH1 as and when it likes: what the client has drained is, in order, read from the responses
      owed to the two-way requests the server took. */
  lemma AnswersArrive(sv: Service, c: Chans, scripts: seq<seq<World>>, ops: seq<Op>)
    requires var log := Life(sv, c, scripts).log;
             && Fails(log) == 0 && Collect(OthersIn, log) == []
             && Carries(Run(START, ops).arrived, Collect(SentIn, log))
    ensures var owed := Owed(sv, Collect(TookAny, Life(sv, c, scripts).log));
            var drained := Run(START, ops).drained;
            |drained| <= |owed| && forall i :: 0 <= i < |drained| ==> ReadFrom(drained[i], owed[i])
  {
    var log, h := Life(sv, c, scripts).log, Run(START, ops);
    assert Collect(OfferIn, log) == Owed(sv, Collect(TookAny, log)) by {
      LifeAccounts(sv, c, scripts);
    }
    assert RpcClient.InOrder(h) by {
      StartCounts();
      Accounting(START, ops);
    }
    DrainedRead(sv, log, h);
  }
}
