/** In which order the server of the BUSY protocol receives, and what it does before it clears BUSY.
    Main results: URGENT has been empty before anything is taken from REQ, in every pass (UrgentFirst);
    left alone, the server receives all of URGENT, then all of REQ, each in order (UrgentThenReq); BUSY is
    cleared only after a whole window in which every look at either ring found it empty (WindowQuiet) and
    never sooner after a message (LooksAfterTake), and once (ClearedOnce); and no step breaks the order in
    which each client sent its requests on a channel (OrderStep). */
module BusyOrder {
  import opened Basics
  import opened BusyProtocol
  import opened BusyRuns
  import opened Machine

  /** The server is past URGENT in a pass over the rings. */
  predicate AtReq(s: Shared) {
    s.server.DrainReq? || s.server.FinalReq?
  }

  // ---- no requests reach memory ----

  predicate NothingArrives(run: seq<Action>) {
    forall i :: 0 <= i < |run| ==> !run[i].FlushClient?
  }

  /** All that has been received or waits, in the order in which it ought to be received. */
  function Line(s: Shared): seq<Request> {
    s.taken + s.urgent + s.req
  }

  /** Taking the first of what waits leaves the line as it is. */
  lemma TakeFirst(taken: seq<Request>, ring: seq<Request>, behind: seq<Request>)
    requires ring != []
    ensures (taken + [ring[0]]) + ring[1..] + behind == taken + ring + behind
  {
    assert [ring[0]] + ring[1..] == ring;
    assert (taken + [ring[0]]) + ring[1..] == taken + ([ring[0]] + ring[1..]);
  }

  lemma LineStep(cfg: Config, s: Shared, a: Action)
    requires (AtReq(s) ==> s.urgent == []) && !a.FlushClient? && Step(cfg, s, a).Some?
    ensures var t := Step(cfg, s, a).value; Line(t) == Line(s) && (AtReq(t) ==> t.urgent == [])
  {
    if a.ServerStep? {
      ServerLine(cfg, s, a.counted);
    }
  }

  lemma ServerLine(cfg: Config, s: Shared, counted: bool)
    requires (AtReq(s) ==> s.urgent == []) && Server(cfg, s, counted).Some?
    ensures var t := Server(cfg, s, counted).value; Line(t) == Line(s) && (AtReq(t) ==> t.urgent == [])
  {
    hide Line;
    var t := Server(cfg, s, counted).value;
    AtReqStays(cfg, s, counted);
    hide Server, AtReq;
    ServerTakes(cfg, s, counted);
    if t.urgent != s.urgent {
      TakenUrgent(s, t);
    } else if t.req != s.req {
      ReqFromReq(cfg, s, counted);
      TakenReq(s, t);
    } else {
      SameLine(s, t);
    }
  }

  lemma AtReqStays(cfg: Config, s: Shared, counted: bool)
    requires (AtReq(s) ==> s.urgent == []) && Server(cfg, s, counted).Some?
    ensures var t := Server(cfg, s, counted).value; AtReq(t) ==> t.urgent == []
  {
  }

  lemma SameLine(s: Shared, t: Shared)
    requires t.taken == s.taken && t.urgent == s.urgent && t.req == s.req
    ensures Line(t) == Line(s)
  {
  }

  lemma TakenUrgent(s: Shared, t: Shared)
    requires s.urgent != [] && t.taken == s.taken + [s.urgent[0]] && t.urgent == s.urgent[1..] && t.req == s.req
    ensures Line(t) == Line(s)
  {
    TakeFirst(s.taken, s.urgent, s.req);
  }

  lemma TakenReq(s: Shared, t: Shared)
    requires s.urgent == [] == t.urgent && s.req != []
    requires t.taken == s.taken + [s.req[0]] && t.req == s.req[1..]
    ensures Line(t) == Line(s)
  {
    TakeFirst(s.taken, s.req, []);
    assert s.taken + s.urgent == s.taken && t.taken + t.urgent == t.taken;
    assert t.taken + t.req + [] == t.taken + t.req && s.taken + s.req + [] == s.taken + s.req;
  }

  /** REQ is taken from only behind URGENT. */
  lemma ReqFromReq(cfg: Config, s: Shared, counted: bool)
    requires Server(cfg, s, counted).Some? && Server(cfg, s, counted).value.req != s.req
    ensures AtReq(s)
  {
  }

  /** While nothing arrives, what the server receives from the start of a pass on is all of URGENT and
      then all of REQ, each oldest first. */
  lemma {:induction false} UrgentThenReq(cfg: Config, s: Shared, run: seq<Action>)
    requires (AtReq(s) ==> s.urgent == []) && NothingArrives(run) && Exec(Steps(cfg), s, run).Some?
    ensures var t := Exec(Steps(cfg), s, run).value;
            t.taken + t.urgent + t.req == s.taken + s.urgent + s.req && t.taken <= s.taken + s.urgent + s.req
    decreases |run|
  {
    if run == [] {
      assert s.taken + s.urgent + s.req == s.taken + (s.urgent + s.req);
    } else {
      var u := Step(cfg, s, run[0]).value;
      LineStep(cfg, s, run[0]);
      UrgentThenReq(cfg, u, run[1..]);
    }
  }

  // ---- requests arrive at any time ----

  /** No step of the run shortens REQ. */
  predicate ReqKept(cfg: Config, s: Shared, run: seq<Action>)
    decreases |run|
  {
    run != [] && Step(cfg, s, run[0]).Some? ==>
      var t := Step(cfg, s, run[0]).value; |s.req| <= |t.req| && ReqKept(cfg, t, run[1..])
  }

  /** A server step that takes nothing leaves URGENT ahead of REQ, or has found it empty. */
  lemma IdleStep(cfg: Config, s: Shared, counted: bool)
    requires Server(cfg, s, counted).Some? && Server(cfg, s, counted).value.taken == s.taken
    ensures var t := Server(cfg, s, counted).value; t.urgent == [] || !AtReq(t)
  {
  }

  lemma AheadStep(cfg: Config, s: Shared, a: Action)
    requires !AtReq(s) && Step(cfg, s, a).Some?
    ensures var t := Step(cfg, s, a).value; |s.req| <= |t.req| && (t.urgent == [] || !AtReq(t))
  {
    if a.ServerStep? {
      ServerTakes(cfg, s, a.counted);
      if Step(cfg, s, a).value.req != s.req {
        ReqFromReq(cfg, s, a.counted);
      } else if Step(cfg, s, a).value.taken == s.taken {
        IdleStep(cfg, s, a.counted);
      }
    }
  }

  lemma {:induction false} UrgentSeen(cfg: Config, s: Shared, run: seq<Action>, a: Action) returns (i: nat)
    requires (s.urgent == [] || !AtReq(s)) && Exec(Steps(cfg), s, run).Some?
    requires var t := Exec(Steps(cfg), s, run).value;
             Step(cfg, t, a).Some? && |Step(cfg, t, a).value.req| < |t.req|
    ensures i <= |run| && Exec(Steps(cfg), s, run[..i]).Some?
    ensures Exec(Steps(cfg), s, run[..i]).value.urgent == []
    decreases |run|
  {
    i := 0;
    if s.urgent != [] {
      if run == [] {
        AheadStep(cfg, s, a);
      } else {
        AheadStep(cfg, s, run[0]);
        var j := UrgentSeen(cfg, Step(cfg, s, run[0]).value, run[1..], a);
        i := j + 1;
        assert run[..i][1..] == run[1..][..j];
      }
    }
  }

  /** Whatever arrives and whenever: from any step of the server that takes nothing (the one that sets
      BUSY, a look that finds a ring empty, a hit, the recheck) to the next taking from REQ, there is a
      moment at which URGENT is empty. */
  lemma UrgentFirst(cfg: Config, s: Shared, counted: bool, run: seq<Action>, a: Action) returns (i: nat)
    requires Step(cfg, s, ServerStep(counted)).Some?
    requires var t := Step(cfg, s, ServerStep(counted)).value;
             && t.taken == s.taken && Exec(Steps(cfg), t, run).Some? && ReqKept(cfg, t, run)
             && var u := Exec(Steps(cfg), t, run).value;
             Step(cfg, u, a).Some? && |Step(cfg, u, a).value.req| < |u.req|
    ensures var t := Step(cfg, s, ServerStep(counted)).value;
            && i <= |run| && Exec(Steps(cfg), t, run[..i]).Some?
            && Exec(Steps(cfg), t, run[..i]).value.urgent == []
  {
    IdleStep(cfg, s, counted);
    i := UrgentSeen(cfg, Step(cfg, s, ServerStep(counted)).value, run, a);
  }

  // ---- before BUSY is cleared ----

  predicate Spins(s: Shared) {
    s.server.SpinReq? || s.server.SpinUrgent?
  }

  /** The ring the server's next step of the window looks at; after the last turn it looks at none. */
  function LooksAt(cfg: Config, s: Shared): Option<Channel> {
    match s.server
    case SpinReq(k) => if k < cfg.spinLimit then Some(Req) else None
    case SpinUrgent(_) => Some(Urgent)
    case _ => None
  }

  function RingOf(s: Shared, ch: Channel): seq<Request> {
    if ch == Req then s.req else s.urgent
  }

  /** Looks of the window at a channel that found it empty. */
  function EmptyLooks(cfg: Config, s: Shared, run: seq<Action>, ch: Channel): nat
    decreases |run|
  {
    if run == [] || Step(cfg, s, run[0]).None? then 0
    else
      (if run[0].ServerStep? && LooksAt(cfg, s) == Some(ch) && RingOf(s, ch) == [] then 1 else 0)
      + EmptyLooks(cfg, Step(cfg, s, run[0]).value, run[1..], ch)
  }

  function ServerSteps(run: seq<Action>): nat {
    if run == [] then 0 else (if run[0].ServerStep? then 1 else 0) + ServerSteps(run[1..])
  }

  /** The server stays in the window until the run's end. */
  predicate InWindow(cfg: Config, s: Shared, run: seq<Action>)
    decreases |run|
  {
    run != [] ==> Spins(s) && (Step(cfg, s, run[0]).Some? ==> InWindow(cfg, Step(cfg, s, run[0]).value, run[1..]))
  }

  /** Turns of the window still to come, for a channel. */
  function Turns(cfg: Config, s: Shared, ch: Channel): int {
    match s.server
    case SpinReq(k) => cfg.spinLimit - k
    case SpinUrgent(k) => cfg.spinLimit - k - (if ch == Req then 1 else 0)
    case _ => 0
  }

  predicate WindowOk(cfg: Config, s: Shared) {
    match s.server
    case SpinReq(k) => k <= cfg.spinLimit
    case SpinUrgent(k) => k < cfg.spinLimit
    case _ => true
  }

  lemma WindowStep(cfg: Config, s: Shared, a: Action)
    requires Spins(s) && WindowOk(cfg, s) && Step(cfg, s, a).Some?
    ensures var t := Step(cfg, s, a).value;
            if !a.ServerStep? then t.server == s.server
            else
              && WindowOk(cfg, t)
              && (Spins(t) || t.server.ClearBusy? ==>
                    forall ch :: Turns(cfg, t, ch)
                      == Turns(cfg, s, ch) - (if LooksAt(cfg, s) == Some(ch) && RingOf(s, ch) == [] then 1 else 0))
              && (t.server.ClearBusy? ==> LooksAt(cfg, s).None?)
              && (Spins(t) ==> LooksAt(cfg, s).Some?)
  {
  }

  lemma {:induction false} WindowLooks(cfg: Config, s: Shared, run: seq<Action>)
    requires (Spins(s) || s.server.ClearBusy?) && WindowOk(cfg, s) && InWindow(cfg, s, run)
    requires Exec(Steps(cfg), s, run).Some? && Exec(Steps(cfg), s, run).value.server.ClearBusy?
    ensures EmptyLooks(cfg, s, run, Req) == Turns(cfg, s, Req)
    ensures EmptyLooks(cfg, s, run, Urgent) == Turns(cfg, s, Urgent)
    ensures ServerSteps(run) == Turns(cfg, s, Req) + Turns(cfg, s, Urgent) + if Spins(s) then 1 else 0
    decreases |run|
  {
    if run != [] {
      WindowStep(cfg, s, run[0]);
      var t := Step(cfg, s, run[0]).value;
      assert t.server.ClearBusy? || Spins(t);
      WindowLooks(cfg, t, run[1..]);
    }
  }

  /** From the beginning of the window to the clearing of BUSY the server looks spinLimit times at each
      ring, finds it empty each time, and does nothing else. */
  lemma WindowQuiet(cfg: Config, s: Shared, run: seq<Action>)
    requires s.server == SpinReq(0) && InWindow(cfg, s, run)
    requires Exec(Steps(cfg), s, run).Some? && Exec(Steps(cfg), s, run).value.server.ClearBusy?
    ensures EmptyLooks(cfg, s, run, Req) == EmptyLooks(cfg, s, run, Urgent) == cfg.spinLimit
    ensures ServerSteps(run) == 2 * cfg.spinLimit + 1
  {
    WindowLooks(cfg, s, run);
  }

  /** The fewest server steps to the clearing of BUSY. Once it has been cleared it is not again in this
      call, so any number does. */
  function Fewest(cfg: Config, pc: ServerPc): nat {
    var window := 2 * cfg.spinLimit + 1;
    match pc
    case SetBusy => 3 + window
    case DrainUrgent(n) => if n > 0 then 4 + window else 2 + window
    case DrainReq(n) => if n > 0 then 3 + window else 1 + window
    case SpinReq(k) => if k <= cfg.spinLimit then 2 * (cfg.spinLimit - k) + 1 else 1
    case SpinUrgent(k) => if k < cfg.spinLimit then 2 * (cfg.spinLimit - k) else 2
    case ClearBusy => 0
    case _ => 4 + window
  }

  lemma {:induction false} StepsNeeded(cfg: Config, s: Shared, run: seq<Action>)
    requires Exec(Steps(cfg), s, run).Some?
    ensures Fewest(cfg, s.server) <= ServerSteps(run) + Fewest(cfg, Exec(Steps(cfg), s, run).value.server)
    decreases |run|
  {
    if run != [] {
      var t := Step(cfg, s, run[0]).value;
      if run[0].ServerStep? {
        FewestDown(cfg, s, run[0].counted);
      }
      StepsNeeded(cfg, t, run[1..]);
    }
  }

  lemma FewestDown(cfg: Config, s: Shared, counted: bool)
    requires Server(cfg, s, counted).Some?
    ensures Fewest(cfg, s.server) <= 1 + Fewest(cfg, Server(cfg, s, counted).value.server)
  {
  }

  /** After a message that counts, and before BUSY is cleared, the server passes over both rings once more
      and through the whole window; after one that does not, it finishes the pass it is in. */
  lemma LooksAfterTake(cfg: Config, s: Shared, counted: bool, run: seq<Action>)
    requires Step(cfg, s, ServerStep(counted)).Some?
    requires var t := Step(cfg, s, ServerStep(counted)).value;
             t.taken != s.taken && Exec(Steps(cfg), t, run).Some?
             && Exec(Steps(cfg), t, run).value.server.ClearBusy?
    ensures ServerSteps(run) >= 2 * cfg.spinLimit + if counted then 4 else 2
  {
    hide Server;
    TakeRestarts(cfg, s, counted);
    StepsNeeded(cfg, Step(cfg, s, ServerStep(counted)).value, run);
  }

  lemma TakeRestarts(cfg: Config, s: Shared, counted: bool)
    requires Server(cfg, s, counted).Some? && Server(cfg, s, counted).value.taken != s.taken
    ensures Fewest(cfg, Server(cfg, s, counted).value.server) >= 2 * cfg.spinLimit + if counted then 4 else 2
  {
  }

  /** BUSY has been cleared in this call. */
  predicate Cleared(pc: ServerPc) {
    pc.FenceStep? || pc.RecheckReq? || pc.RecheckUrgent? || pc.FinalUrgent? || pc.FinalReq? || pc.Done?
  }

  lemma ClearedStep(cfg: Config, s: Shared, a: Action)
    requires Cleared(s.server) && Step(cfg, s, a).Some?
    ensures var t := Step(cfg, s, a).value;
            Cleared(t.server) && (t.serverBuffer == s.serverBuffer
                                  || (s.serverBuffer != [] && t.serverBuffer == s.serverBuffer[1..]))
  {
  }

  /** Once BUSY has been cleared the call stores nothing in it any more, neither sets it nor clears it
      again, and does not go back to spinning. */
  lemma {:induction false} ClearedOnce(cfg: Config, s: Shared, run: seq<Action>)
    requires Cleared(s.server) && Exec(Steps(cfg), s, run).Some?
    ensures var t := Exec(Steps(cfg), s, run).value;
            && Cleared(t.server) && !Spins(t) && |t.serverBuffer| <= |s.serverBuffer|
            && t.serverBuffer == s.serverBuffer[|s.serverBuffer| - |t.serverBuffer|..]
    decreases |run|
  {
    hide Step;
    if run != [] {
      var u := Step(cfg, s, run[0]).value;
      ClearedStep(cfg, s, run[0]);
      ClearedOnce(cfg, u, run[1..]);
    }
  }

  // ---- the order of each client's requests ----

  /** The requests of a channel. */
  function Of(rs: seq<Request>, ch: Channel): seq<Request> {
    if rs == [] then []
    else
      var last := rs[|rs| - 1];
      Of(rs[..|rs| - 1], ch) + if last.channel == ch then [last] else []
  }

  /** Received from a channel, then waiting in it. */
  function Through(s: Shared, ch: Channel): seq<Request> {
    Of(s.taken, ch) + RingOf(s, ch)
  }

  predicate Ascending(rs: seq<Request>) {
    forall i, j :: 0 <= i < j < |rs| && rs[i].client == rs[j].client ==> rs[i].seqno < rs[j].seqno
  }

  /** Each is older than what its client still has in its store buffer. */
  predicate Older(clients: seq<Client>, rs: seq<Request>) {
    forall i :: 0 <= i < |rs| ==>
      rs[i].client < |clients| && rs[i].seqno + |clients[rs[i].client].buffer| < clients[rs[i].client].sent
  }

  ghost predicate OrderInv(s: Shared) {
    forall ch :: Ascending(Through(s, ch)) && Older(s.clients, Through(s, ch))
  }

  lemma OfMore(rs: seq<Request>, r: Request, ch: Channel)
    ensures Of(rs + [r], ch) == Of(rs, ch) + if r.channel == ch then [r] else []
  {
    assert (rs + [r])[..|rs|] == rs;
  }

  lemma ServerOrder(cfg: Config, s: Shared, counted: bool, ch: Channel)
    requires CoreInv(s) && Server(cfg, s, counted).Some?
    ensures Through(Server(cfg, s, counted).value, ch) == Through(s, ch)
  {
    hide Server, BusyOk;
    var t := Server(cfg, s, counted).value;
    ServerTakes(cfg, s, counted);
    if t.req != s.req {
      TakenInOrder(s, t, Req, ch);
    } else if t.urgent != s.urgent {
      TakenInOrder(s, t, Urgent, ch);
    }
  }

  lemma TakenInOrder(s: Shared, t: Shared, from: Channel, ch: Channel)
    requires RingOk(s.clients, RingOf(s, from), from) && RingOf(s, from) != []
    requires t.taken == s.taken + [RingOf(s, from)[0]] && RingOf(t, from) == RingOf(s, from)[1..]
    requires from == Req ==> t.urgent == s.urgent
    requires from == Urgent ==> t.req == s.req
    ensures Through(t, ch) == Through(s, ch)
  {
    var ring := RingOf(s, from);
    assert RequestOk(s.clients, ring[0], from);
    OfMore(s.taken, ring[0], ch);
    if ch == from {
      TakeFirst(Of(s.taken, ch), ring, []);
      assert Of(s.taken, ch) + ring + [] == Of(s.taken, ch) + ring;
      assert Of(t.taken, ch) + ring[1..] + [] == Of(t.taken, ch) + ring[1..];
    }
  }

  lemma AscendingMore(clients: seq<Client>, rs: seq<Request>, r: Request)
    requires Ascending(rs) && Older(clients, rs)
    requires r.client < |clients| && clients[r.client].sent <= r.seqno + |clients[r.client].buffer|
    ensures Ascending(rs + [r])
  {
    var more := rs + [r];
    forall i, j | 0 <= i < j < |more| && more[i].client == more[j].client ensures more[i].seqno < more[j].seqno {
      assert more[i] == rs[i];
      if j < |rs| {
        assert more[j] == rs[j];
      }
    }
  }

  /** A client's buffer shrinks, and the request that left it is now behind the others. */
  lemma OlderMore(clients: seq<Client>, clients': seq<Client>, rs: seq<Request>, r: Request, c: nat)
    requires Older(clients, rs) && |clients'| == |clients| && c < |clients|
    requires forall i :: 0 <= i < |clients| && i != c ==> clients'[i] == clients[i]
    requires clients'[c].sent == clients[c].sent && |clients'[c].buffer| < |clients[c].buffer|
    requires r.client == c && r.seqno + |clients'[c].buffer| < clients'[c].sent
    ensures Older(clients', rs) && Older(clients', rs + [r])
  {
  }

  lemma FlushOrder(s: Shared, c: nat, ch: Channel)
    requires CoreInv(s) && OrderInv(s) && c < |s.clients| && s.clients[c].buffer != []
    ensures var t := Flush(s, c); Ascending(Through(t, ch)) && Older(t.clients, Through(t, ch))
  {
    hide Of, Ascending, Older;
    var t, r := Flush(s, c), s.clients[c].buffer[0];
    assert ClientOk(c, s.clients[c]);
    assert Ascending(Through(s, ch)) && Older(s.clients, Through(s, ch));
    OlderMore(s.clients, t.clients, Through(s, ch), r, c);
    if r.channel == ch {
      assert Through(t, ch) == Through(s, ch) + [r];
      AscendingMore(s.clients, Through(s, ch), r);
    } else {
      assert Through(t, ch) == Through(s, ch);
    }
  }

  lemma OrderStep(cfg: Config, s: Shared, a: Action)
    requires cfg.clientFence && CoreInv(s) && OrderInv(s) && Step(cfg, s, a).Some?
    ensures OrderInv(Step(cfg, s, a).value)
  {
    var t := Step(cfg, s, a).value;
    forall ch ensures Ascending(Through(t, ch)) && Older(t.clients, Through(t, ch)) {
      assert Ascending(Through(s, ch)) && Older(s.clients, Through(s, ch));
      if a.ServerStep? {
        ServerOrder(cfg, s, a.counted, ch);
        ServerTakes(cfg, s, a.counted);
      } else if a.FlushClient? {
        FlushOrder(s, a.c, ch);
      } else if !a.FlushServer? {
        assert ClientOk(a.c, s.clients[a.c]);
        assert Through(t, ch) == Through(s, ch);
      }
    }
  }

  /** The steps of the boards that are not steps of the protocol leave the order alone. */
  lemma OrderKept(s: Shared, t: Shared)
    requires OrderInv(s) && t.taken == s.taken && t.req == s.req && t.urgent == s.urgent && t.clients == s.clients
    ensures OrderInv(t)
  {
    forall ch ensures Ascending(Through(t, ch)) && Older(t.clients, Through(t, ch)) {
      assert Ascending(Through(s, ch)) && Older(s.clients, Through(s, ch));
      assert Through(t, ch) == Through(s, ch);
    }
  }

  /** Of two requests that a client sent on one channel the earlier one has been received first. */
  lemma ReceivedInOrder(s: Shared, ch: Channel)
    requires OrderInv(s)
    ensures Ascending(Of(s.taken, ch))
  {
    assert Ascending(Through(s, ch));
    assert forall i :: 0 <= i < |Of(s.taken, ch)| ==> Through(s, ch)[i] == Of(s.taken, ch)[i];
  }
}
