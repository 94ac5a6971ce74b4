/** Particular runs of the BUSY protocol, used as witnesses: how the server falls asleep, and how a
    request is missed when one of the two fences is left out. */
module BusyRuns {
  import opened Basics
  import opened BusyProtocol
  import opened Machine

  function Steps(cfg: Config): (Shared, Action) -> Option<Shared> {
    (s: Shared, a: Action) => Step(cfg, s, a)
  }

  /** Extends a run by one step of the server task. */
  lemma Serve(cfg: Config, s0: Shared, run: seq<Action>, s: Shared)
    returns (run': seq<Action>, s': Shared)
    requires Exec(Steps(cfg), s0, run) == Some(s) && Server(cfg, s, true).Some?
    ensures Exec(Steps(cfg), s0, run') == Some(s') && s' == Server(cfg, s, true).value
  {
    run', s' := Go(Steps(cfg), s0, run, s, ServerStep(true));
  }

  lemma SpinTurn(cfg: Config, s0: Shared, run: seq<Action>, s: Shared)
    returns (run': seq<Action>, s': Shared)
    requires Exec(Steps(cfg), s0, run) == Some(s)
    requires s.server.SpinReq? && s.server.spun < cfg.spinLimit && s.req == [] && s.urgent == []
    ensures Exec(Steps(cfg), s0, run') == Some(s') && s' == s.(server := SpinReq(s.server.spun + 1))
  {
    var mid := s.(server := SpinUrgent(s.server.spun));
    assert Server(cfg, s, true) == Some(mid);
    run', s' := Serve(cfg, s0, run, s);
    assert Server(cfg, mid, true) == Some(s.(server := SpinReq(s.server.spun + 1)));
    run', s' := Serve(cfg, s0, run', mid);
  }

  /** With nothing in memory the elastic window runs out and the server moves on to clear BUSY. */
  lemma {:induction false} SpinOut(cfg: Config, s0: Shared, run: seq<Action>, s: Shared)
    returns (run': seq<Action>, s': Shared)
    requires Exec(Steps(cfg), s0, run) == Some(s)
    requires s.server.SpinReq? && s.req == [] && s.urgent == []
    ensures Exec(Steps(cfg), s0, run') == Some(s') && s' == s.(server := ClearBusy)
    decreases cfg.spinLimit - s.server.spun
  {
    var k := s.server.spun;
    if k >= cfg.spinLimit {
      run', s' := Serve(cfg, s0, run, s);
    } else {
      run', s' := SpinTurn(cfg, s0, run, s);
      run', s' := SpinOut(cfg, s0, run', s');
    }
  }

  /** A server that has published BUSY=1, found nothing and entered the spin. */
  function Spinning(n: nat): Shared {
    Start(n).(busy := true, server := SpinReq(0))
  }

  lemma ReachSpinning(cfg: Config, n: nat) returns (run: seq<Action>)
    ensures Exec(Steps(cfg), Start(n), run) == Some(Spinning(n))
  {
    var s;
    run, s := Serve(cfg, Start(n), [], Start(n));
    run, s := Go(Steps(cfg), Start(n), run, s, FlushServer);
    run, s := Serve(cfg, Start(n), run, s);
    run, s := Serve(cfg, Start(n), run, s);
    assert s.serverBuffer == [];
    assert s == Spinning(n);
  }

  lemma LookOnce(cfg: Config, s0: Shared, run: seq<Action>, s: Shared)
    returns (run': seq<Action>, s': Shared)
    requires Exec(Steps(cfg), s0, run) == Some(s)
    requires s.server.RecheckReq? && s.req == [] && s.urgent == []
    ensures Exec(Steps(cfg), s0, run') == Some(s') && s' == s.(server := Done)
  {
    var mid := s.(server := RecheckUrgent);
    assert Server(cfg, s, true) == Some(mid);
    run', s' := Serve(cfg, s0, run, s);
    assert Server(cfg, mid, true) == Some(s.(server := Done));
    run', s' := Serve(cfg, s0, run', mid);
  }

  /** From ClearBusy with empty rings to Done; the BUSY=0 store reaches memory on the way if flush. */
  lemma Doze(cfg: Config, s0: Shared, run: seq<Action>, s: Shared, flush: bool)
    returns (run': seq<Action>, s': Shared)
    requires Exec(Steps(cfg), s0, run) == Some(s)
    requires s.server.ClearBusy? && s.req == [] && s.urgent == []
    requires s.busy && s.serverBuffer == [] && (flush || !cfg.serverFence)
    ensures Exec(Steps(cfg), s0, run') == Some(s')
    ensures s' == if flush then s.(server := Done, busy := false)
                  else s.(server := Done, serverBuffer := [false])
  {
    assert s.serverBuffer + [false] == [false];
    run', s' := Serve(cfg, s0, run, s);
    assert s' == s.(server := FenceStep, serverBuffer := [false]);
    if flush {
      run', s' := Go(Steps(cfg), s0, run', s', FlushServer);
      assert [false][1..] == [];
      assert s' == s.(server := FenceStep, busy := false);
    }
    assert Server(cfg, s', true) == Some(s'.(server := RecheckReq));
    run', s' := Serve(cfg, s0, run', s');
    run', s' := LookOnce(cfg, s0, run', s');
  }

  predicate FirstIs(s: Shared, k: Client) {
    s.clients != [] && s.clients[0] == k
  }

  /** The first client sends its first request; it reaches memory at once if flush. */
  lemma FirstSend(cfg: Config, s0: Shared, run: seq<Action>, s: Shared, ch: Channel, flush: bool)
    returns (run': seq<Action>, s': Shared)
    requires Exec(Steps(cfg), s0, run) == Some(s)
    requires FirstIs(s, Client(Idle, 0, [])) && s.req == [] && s.urgent == []
    ensures Exec(Steps(cfg), s0, run') == Some(s')
    ensures var r := Request(0, 0, ch);
            s' == s.(clients := s.clients[0 := Client(Sent, 1, if flush then [] else [r])],
                     req := if flush && ch == Req then [r] else [],
                     urgent := if flush && ch == Urgent then [r] else [],
                     issued := s.issued + multiset{r})
  {
    var r := Request(0, 0, ch);
    run', s' := Go(Steps(cfg), s0, run, s, Send(0, ch));
    var sent := s.(clients := s.clients[0 := Client(Sent, 1, [r])], issued := s.issued + multiset{r});
    assert s.clients[0].buffer + [r] == [r];
    assert s'.clients == sent.clients;
    if flush {
      run', s' := Go(Steps(cfg), s0, run', sent, FlushClient(0));
      sent := sent.(clients := s.clients[0 := Client(Sent, 1, [])]);
      assert [r][1..] == [] && s.req + [r] == [r] && s.urgent + [r] == [r];
      assert s'.clients == sent.clients;
    }
  }

  /** The first client passes its fence and reads BUSY. */
  lemma LookAtBusy(cfg: Config, s0: Shared, run: seq<Action>, s: Shared)
    returns (run': seq<Action>, s': Shared)
    requires Exec(Steps(cfg), s0, run) == Some(s)
    requires s.clients != [] && s.clients[0].pc == Sent
    requires s.clients[0].buffer == [] || !cfg.clientFence
    ensures Exec(Steps(cfg), s0, run') == Some(s')
    ensures s' == s.(clients := s.clients[0 := s.clients[0].(pc := if s.busy then Idle else Ringing)])
  {
    run', s' := Go(Steps(cfg), s0, run, s, PassFence(0));
    run', s' := Go(Steps(cfg), s0, run', s', ReadBusy(0));
    assert s'.clients == s.clients[0 := s.clients[0].(pc := if s.busy then Idle else Ringing)];
  }

  /** A finished call's request lies in memory, the server has returned and nobody rang. */
  predicate Missed(s: Shared) {
    && s.server.Done? && s.doorbells == 0
    && s.req != [] && Settled(s.clients, s.req[0])
  }

  /** Without the client's fence: BUSY is read as 1 while the request is still buffered, and the server
      returns before it reaches memory. */
  lemma BufferedAway(cfg: Config, n: nat) returns (run: seq<Action>, s: Shared)
    requires !cfg.clientFence && n >= 1
    ensures Exec(Steps(cfg), Start(n), run) == Some(s)
    ensures s.server.Done? && s.doorbells == 0 && s.req == [] && FirstIs(s, Client(Idle, 1, [Request(0, 0, Req)]))
  {
    run := ReachSpinning(cfg, n);
    assert FirstIs(Spinning(n), Client(Idle, 0, []));
    run, s := FirstSend(cfg, Start(n), run, Spinning(n), Req, false);
    run, s := LookAtBusy(cfg, Start(n), run, s);
    run, s := SpinOut(cfg, Start(n), run, s);
    run, s := Doze(cfg, Start(n), run, s, true);
  }

  /** The request reaches memory. */
  lemma ReachesMemory(cfg: Config, s: Shared) returns (run: seq<Action>, t: Shared)
    requires s.server.Done? && s.doorbells == 0 && s.req == [] && FirstIs(s, Client(Idle, 1, [Request(0, 0, Req)]))
    ensures Exec(Steps(cfg), s, run) == Some(t) && Missed(t)
  {
    run, t := Go(Steps(cfg), s, [], s, FlushClient(0));
  }

  /** Without the server's fence: the server returns while its BUSY=0 is still buffered. */
  lemma BusyLingers(cfg: Config, n: nat) returns (run: seq<Action>, s: Shared)
    requires !cfg.serverFence && n >= 1
    ensures Exec(Steps(cfg), Start(n), run) == Some(s)
    ensures s.server.Done? && s.doorbells == 0 && s.req == [] && s.urgent == [] && s.busy
    ensures FirstIs(s, Client(Idle, 0, []))
  {
    run := ReachSpinning(cfg, n);
    run, s := SpinOut(cfg, Start(n), run, Spinning(n));
    run, s := Doze(cfg, Start(n), run, s, false);
  }

  /** A client that reads BUSY as 1 does not ring. */
  lemma NotRung(cfg: Config, s: Shared) returns (run: seq<Action>, t: Shared)
    requires s.server.Done? && s.doorbells == 0 && s.req == [] && s.urgent == [] && s.busy
    requires FirstIs(s, Client(Idle, 0, []))
    ensures Exec(Steps(cfg), s, run) == Some(t) && Missed(t)
  {
    run, t := FirstSend(cfg, s, [], s, Req, true);
    run, t := LookAtBusy(cfg, s, run, t);
  }

  /** With either fence left out a server can return and then a request be missed. */
  lemma WithoutFence(cfg: Config, n: nat) returns (first: seq<Action>, s: Shared, second: seq<Action>, t: Shared)
    requires (!cfg.clientFence || !cfg.serverFence) && n >= 1
    ensures Exec(Steps(cfg), Start(n), first) == Some(s) && s.server.Done? && s.req == []
    ensures Exec(Steps(cfg), s, second) == Some(t) && Missed(t)
  {
    if cfg.clientFence {
      first, s := BusyLingers(cfg, n);
      second, t := NotRung(cfg, s);
    } else {
      first, s := BufferedAway(cfg, n);
      second, t := ReachesMemory(cfg, s);
    }
  }
}
