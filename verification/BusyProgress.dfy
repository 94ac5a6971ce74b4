/** How far the server of the BUSY protocol can be from taking a message or returning; used to bound how
    long the system can go on by itself. */
module BusyProgress {
  import opened Basics
  import opened BusyProtocol
  import Modular

  function Buffered(clients: seq<Client>): nat {
    if clients == [] then 0 else |clients[0].buffer| + Buffered(clients[1..])
  }

  lemma {:induction false} BufferedUpdate(clients: seq<Client>, c: nat, k: Client)
    requires c < |clients|
    ensures Buffered(clients[c := k]) + |clients[c].buffer| == Buffered(clients) + |k.buffer|
  {
    if c == 0 {
      assert clients[c := k][1..] == clients[1..];
    } else {
      assert clients[c := k][1..] == clients[1..][c - 1 := k];
      BufferedUpdate(clients[1..], c - 1, k);
    }
  }

  /** How far the server can be from going to sleep if nothing more happens. */
  function Distance(cfg: Config, c: Shared): nat {
    var spin := 2 * cfg.spinLimit;
    match c.server
    case SetBusy => 14 + spin
    case DrainUrgent(n) =>
      if n > 0 then 13 + spin else if c.req != [] || c.urgent != [] then 2 else 11 + spin
    case DrainReq(n) => if n > 0 then 12 + spin else if c.req != [] then 1 else 10 + spin
    case SpinReq(k) => 7 + if k < cfg.spinLimit then spin - 2 * k else 0
    case SpinUrgent(k) => 8 + if k + 1 < cfg.spinLimit then spin - 2 * (k + 1) else 0
    case ClearBusy => 6
    case FenceStep => 5
    case RecheckReq => 4
    case RecheckUrgent => 3
    case FinalUrgent => 2
    case FinalReq => 1
    case Done => 0
  }

  lemma ServerDescends(cfg: Config, s: Shared, counted: bool)
    requires Server(cfg, s, counted).Some?
    ensures var t := Server(cfg, s, counted).value;
            && t.doorbells == s.doorbells && t.clients == s.clients
            && ((|t.req| + |t.urgent| < |s.req| + |s.urgent| && t.serverBuffer == s.serverBuffer)
                || (t.req == s.req && t.urgent == s.urgent
                    && |t.serverBuffer| <= |s.serverBuffer| + 1
                    && Distance(cfg, t) < Distance(cfg, s)))
  {
    match s.server
    case DrainUrgent(_) =>
    case DrainReq(_) =>
    case FinalUrgent =>
    case FinalReq =>
    case _ =>
  }

  lemma DistanceBounded(cfg: Config, c: Shared)
    ensures Distance(cfg, c) <= 14 + 2 * cfg.spinLimit
  {
  }

  /** A larger multiple outweighs any rest below the unit. */
  lemma Outweighs(w: nat, w': nat, unit: nat, rest': nat)
    requires w' < w && rest' < unit
    ensures w' * unit + rest' < w * unit
  {
    Modular.Monotone(w' + 1, w, unit);
    assert (w' + 1) * unit == w' * unit + unit;
  }
}
