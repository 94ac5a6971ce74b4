/** The BUSY/doorbell protocol between the application cores (clients) and the real-time core
    (server), as interleaved atomic steps over memory with one store buffer per core.

    A core's stores enter its buffer and reach memory later, in order, at any moment; only a
    sequentially consistent fence waits for the buffer to be empty. A client publishes a request,
    fences, reads BUSY and rings the doorbell when it reads 0. The server sets BUSY, drains, spins,
    clears BUSY, fences, looks once more, drains again and returns. What happens after it returns
    (how it parks and what a doorbell does) differs by platform; see WakeupK3 and WakeupQemu. */
module BusyProtocol {
  import opened Basics

  datatype Channel = Req | Urgent

  /** The seqno-th request (from 0) of a client. */
  datatype Request = Request(client: nat, seqno: nat, channel: Channel)

  datatype ClientPc =
    | Idle      // between calls
    | Sent      // request stored, fence not passed
    | Fenced    // fence passed, BUSY not read
    | Ringing   // BUSY read as 0, doorbell not rung

  datatype Client = Client(pc: ClientPc, sent: nat, buffer: seq<Request>)

  /** Where the server is inside process_elastic. */
  datatype ServerPc =
    | SetBusy
    | DrainUrgent(handled: nat)
    | DrainReq(handled: nat)
    | SpinReq(spun: nat)
    | SpinUrgent(spun: nat)
    | ClearBusy
    | FenceStep
    | RecheckReq
    | RecheckUrgent
    | FinalUrgent
    | FinalReq
    | Done

  datatype Shared = Shared(
    busy: bool,                 // BUSY in memory
    serverBuffer: seq<bool>,    // the server's BUSY stores that are not in memory yet, oldest first
    req: seq<Request>,          // the REQ ring in memory
    urgent: seq<Request>,       // the URGENT ring in memory
    clients: seq<Client>,
    doorbells: nat,             // rung and not yet delivered
    server: ServerPc,
    taken: seq<Request>,        // history: what the server has received, in order
    issued: multiset<Request>)  // history: what clients have sent

  /** Which sides issue their fence, and the length of the elastic spin. */
  datatype Config = Config(clientFence: bool, serverFence: bool, spinLimit: nat)

  datatype Action =
    | Send(c: nat, channel: Channel)
    | FlushClient(c: nat)
    | PassFence(c: nat)
    | ReadBusy(c: nat)
    | Ring(c: nat)
    | FlushServer
    | ServerStep(counted: bool)  // counted: the message taken adds to the drain's count

  function Start(n: nat): Shared {
    Shared(false, [], [], [], seq(n, _ => Client(Idle, 0, [])), 0, SetBusy, [], multiset{})
  }

  // ---- steps ----

  function Issue(s: Shared, c: nat, ch: Channel): Shared
    requires c < |s.clients|
  {
    var k := s.clients[c];
    var r := Request(c, k.sent, ch);
    s.(clients := s.clients[c := Client(Sent, k.sent + 1, k.buffer + [r])], issued := s.issued + multiset{r})
  }

  /** The oldest buffered store of client c reaches its ring. */
  function Flush(s: Shared, c: nat): Shared
    requires c < |s.clients| && s.clients[c].buffer != []
  {
    var k := s.clients[c];
    var r := k.buffer[0];
    var rest := s.clients[c := k.(buffer := k.buffer[1..])];
    if r.channel == Req then s.(clients := rest, req := s.req + [r])
    else s.(clients := rest, urgent := s.urgent + [r])
  }

  function MovePc(s: Shared, c: nat, pc: ClientPc): Shared
    requires c < |s.clients|
  {
    s.(clients := s.clients[c := s.clients[c].(pc := pc)])
  }

  function ClientStep(cfg: Config, s: Shared, a: Action): Option<Shared>
    requires !a.FlushServer? && !a.ServerStep?
  {
    if a.c >= |s.clients| then None
    else
      var k := s.clients[a.c];
      match a
      case Send(c, ch) => if k.pc == Idle then Some(Issue(s, c, ch)) else None
      case FlushClient(c) => if k.buffer != [] then Some(Flush(s, c)) else None
      case PassFence(c) =>
        if k.pc == Sent && (cfg.clientFence ==> k.buffer == []) then Some(MovePc(s, c, Fenced)) else None
      case ReadBusy(c) =>
        if k.pc == Fenced then Some(MovePc(s, c, if s.busy then Idle else Ringing)) else None
      case Ring(c) =>
        if k.pc == Ringing then Some(MovePc(s, c, Idle).(doorbells := s.doorbells + 1)) else None
  }

  function TakeUrgent(s: Shared): Shared
    requires s.urgent != []
  {
    s.(urgent := s.urgent[1..], taken := s.taken + [s.urgent[0]])
  }

  function TakeReq(s: Shared): Shared
    requires s.req != []
  {
    s.(req := s.req[1..], taken := s.taken + [s.req[0]])
  }

  function Server(cfg: Config, s: Shared, counted: bool): Option<Shared> {
    var one := if counted then 1 else 0;
    match s.server
    case SetBusy => Some(s.(serverBuffer := s.serverBuffer + [true], server := DrainUrgent(0)))
    case DrainUrgent(n) =>
      if s.urgent != [] then Some(TakeUrgent(s).(server := DrainUrgent(n + one)))
      else Some(s.(server := DrainReq(n)))
    case DrainReq(n) =>
      if s.req != [] then Some(TakeReq(s).(server := DrainReq(n + one)))
      else Some(s.(server := if n > 0 then DrainUrgent(0) else SpinReq(0)))
    case SpinReq(k) =>
      if k >= cfg.spinLimit then Some(s.(server := ClearBusy))
      else Some(s.(server := if s.req != [] then DrainUrgent(0) else SpinUrgent(k)))
    case SpinUrgent(k) =>
      Some(s.(server := if s.urgent != [] then DrainUrgent(0) else SpinReq(k + 1)))
    case ClearBusy => Some(s.(serverBuffer := s.serverBuffer + [false], server := FenceStep))
    case FenceStep =>
      if cfg.serverFence && s.serverBuffer != [] then None
      else Some(s.(server := RecheckReq))
    case RecheckReq => Some(s.(server := if s.req != [] then FinalUrgent else RecheckUrgent))
    case RecheckUrgent => Some(s.(server := if s.urgent != [] then FinalUrgent else Done))
    case FinalUrgent =>
      if s.urgent != [] then Some(TakeUrgent(s)) else Some(s.(server := FinalReq))
    case FinalReq =>
      if s.req != [] then Some(TakeReq(s)) else Some(s.(server := Done))
    case Done => None
  }

  function Step(cfg: Config, s: Shared, a: Action): Option<Shared> {
    match a
    case FlushServer =>
      if s.serverBuffer == [] then None
      else Some(s.(busy := s.serverBuffer[0], serverBuffer := s.serverBuffer[1..]))
    case ServerStep(counted) => Server(cfg, s, counted)
    case _ => ClientStep(cfg, s, a)
  }

  // ---- what every step keeps ----

  /** The client that sent r has finished its fence, BUSY read and doorbell for it. */
  predicate Settled(clients: seq<Client>, r: Request) {
    r.client < |clients| ==>
      var k := clients[r.client];
      k.pc == Idle || r.seqno + 1 < k.sent
  }

  /** Every request in the ring still has its sender's BUSY read or doorbell to come. */
  predicate NoneSettled(clients: seq<Client>, ring: seq<Request>) {
    forall j :: 0 <= j < |ring| ==> !Settled(clients, ring[j])
  }

  /** At most one request is buffered, and only before its sender's fence. */
  predicate ClientOk(i: nat, k: Client) {
    && (k.pc != Idle ==> k.sent > 0)
    && (k.buffer == []
        || (k.pc == Sent && |k.buffer| == 1 && k.buffer[0].client == i && k.buffer[0].seqno + 1 == k.sent))
  }

  predicate RequestOk(clients: seq<Client>, r: Request, ch: Channel) {
    r.channel == ch && r.client < |clients| && r.seqno < clients[r.client].sent
  }

  predicate RingOk(clients: seq<Client>, ring: seq<Request>, ch: Channel) {
    forall j :: 0 <= j < |ring| ==> RequestOk(clients, ring[j], ch)
  }

  /** The value BUSY will have in memory once the server's buffer has drained. */
  function LastBusy(s: Shared): bool {
    if s.serverBuffer == [] then s.busy else s.serverBuffer[|s.serverBuffer| - 1]
  }

  /** Past the fence nothing of the server's is buffered, and BUSY is 0 in memory. */
  predicate PastFence(pc: ServerPc) {
    pc.RecheckReq? || pc.RecheckUrgent? || pc.FinalUrgent? || pc.FinalReq? || pc.Done? || pc.SetBusy?
  }

  predicate BusyOk(s: Shared) {
    && (LastBusy(s) <==> !PastFence(s.server) && s.server != FenceStep)
    && (PastFence(s.server) ==> s.serverBuffer == [])
  }

  predicate CoreInv(s: Shared) {
    && (forall i :: 0 <= i < |s.clients| ==> ClientOk(i, s.clients[i]))
    && RingOk(s.clients, s.req, Req)
    && RingOk(s.clients, s.urgent, Urgent)
    && BusyOk(s)
  }

  lemma StartInv(n: nat)
    ensures CoreInv(Start(n))
  {
  }

  /** One client's record changes, to one that is again well formed and has sent no less. */
  predicate OneClientMoves(s: Shared, t: Shared, c: nat) {
    && c < |s.clients| == |t.clients|
    && (forall i :: 0 <= i < |s.clients| && i != c ==> t.clients[i] == s.clients[i])
    && s.clients[c].sent <= t.clients[c].sent
    && ClientOk(c, t.clients[c])
  }

  lemma ClientMove(cfg: Config, s: Shared, a: Action)
    requires cfg.clientFence && CoreInv(s)
    requires !a.ServerStep? && !a.FlushServer? && Step(cfg, s, a).Some?
    ensures var t := Step(cfg, s, a).value;
            && OneClientMoves(s, t, a.c)
            && t.busy == s.busy && t.serverBuffer == s.serverBuffer && t.server == s.server
            && if a.FlushClient? then t == Flush(s, a.c) else t.req == s.req && t.urgent == s.urgent
  {
    assert ClientOk(a.c, s.clients[a.c]);
  }

  lemma ClientKeepsCoreInv(cfg: Config, s: Shared, a: Action)
    requires cfg.clientFence && CoreInv(s)
    requires !a.ServerStep? && !a.FlushServer? && Step(cfg, s, a).Some?
    ensures CoreInv(Step(cfg, s, a).value)
  {
    ClientMove(cfg, s, a);
    if a.FlushClient? {
      assert ClientOk(a.c, s.clients[a.c]);
    }
  }

  lemma ServerKeepsBusy(cfg: Config, s: Shared, counted: bool)
    requires cfg.serverFence && BusyOk(s) && Server(cfg, s, counted).Some?
    ensures BusyOk(Server(cfg, s, counted).value)
  {
    var t := Server(cfg, s, counted).value;
    match s.server
    case SetBusy => assert t.serverBuffer == s.serverBuffer + [true];
    case ClearBusy => assert t.serverBuffer == s.serverBuffer + [false];
    case _ =>
  }

  /** The channels the server is certain to look at again before it returns. */
  predicate WillLook(pc: ServerPc, ch: Channel) {
    match pc
    case RecheckUrgent => ch == Urgent
    case FinalReq => ch == Req
    case Done => false
    case _ => true
  }

  /** A server step stops promising to look at a channel only when it has just seen it empty. */
  lemma ServerLooks(cfg: Config, s: Shared, counted: bool)
    requires Server(cfg, s, counted).Some?
    ensures var t := Server(cfg, s, counted).value;
            && t.clients == s.clients && t.doorbells == s.doorbells
            && (t.req == s.req || (s.req != [] && t.req == s.req[1..]))
            && (t.urgent == s.urgent || (s.urgent != [] && t.urgent == s.urgent[1..]))
            && (WillLook(s.server, Req) ==> WillLook(t.server, Req) || t.req == [])
            && (WillLook(s.server, Urgent) ==> WillLook(t.server, Urgent) || t.urgent == [])
  {
    match s.server
    case DrainUrgent(_) =>
    case DrainReq(_) =>
    case FinalUrgent =>
    case FinalReq =>
    case _ =>
  }

  lemma ServerKeepsRings(cfg: Config, s: Shared, counted: bool)
    requires RingOk(s.clients, s.req, Req) && RingOk(s.clients, s.urgent, Urgent)
    requires Server(cfg, s, counted).Some?
    ensures var t := Server(cfg, s, counted).value;
            t.clients == s.clients && RingOk(t.clients, t.req, Req) && RingOk(t.clients, t.urgent, Urgent)
  {
    ServerLooks(cfg, s, counted);
  }

  lemma CoreInvStep(cfg: Config, s: Shared, a: Action)
    requires cfg.clientFence && cfg.serverFence
    requires CoreInv(s) && Step(cfg, s, a).Some?
    ensures CoreInv(Step(cfg, s, a).value)
  {
    match a
    case ServerStep(counted) =>
      ServerKeepsBusy(cfg, s, counted);
      ServerKeepsRings(cfg, s, counted);
    case FlushServer =>
    case _ => ClientKeepsCoreInv(cfg, s, a);
  }

  // ---- conservation ----

  /** Copies of r waiting in the clients' store buffers. */
  function InBuffers(clients: seq<Client>, r: Request): nat {
    if clients == [] then 0 else multiset(clients[0].buffer)[r] + InBuffers(clients[1..], r)
  }

  lemma {:induction false} InBuffersUpdate(clients: seq<Client>, c: nat, k: Client, r: Request)
    requires c < |clients|
    ensures InBuffers(clients[c := k], r) + multiset(clients[c].buffer)[r]
         == InBuffers(clients, r) + multiset(k.buffer)[r]
  {
    if c == 0 {
      assert clients[c := k][1..] == clients[1..];
    } else {
      assert clients[c := k][1..] == clients[1..][c - 1 := k];
      InBuffersUpdate(clients[1..], c - 1, k, r);
    }
  }

  lemma {:induction false} InBuffersEmpty(clients: seq<Client>, r: Request)
    requires forall i :: 0 <= i < |clients| ==> clients[i].buffer == []
    ensures InBuffers(clients, r) == 0
  {
    if clients != [] {
      InBuffersEmpty(clients[1..], r);
    }
  }

  /** Copies of r anywhere: received, in a ring, or in a store buffer. */
  function Copies(s: Shared, r: Request): nat {
    multiset(s.taken)[r] + multiset(s.req)[r] + multiset(s.urgent)[r] + InBuffers(s.clients, r)
  }

  /** No request is lost or duplicated. */
  ghost predicate Conserved(s: Shared) {
    forall r :: s.issued[r] == Copies(s, r)
  }

  ghost predicate IssuedOnce(s: Shared) {
    forall r: Request :: r in s.issued ==>
      s.issued[r] == 1 && r.client < |s.clients| && r.seqno < s.clients[r.client].sent
  }

  lemma StartConserved(n: nat)
    ensures Conserved(Start(n)) && IssuedOnce(Start(n))
  {
    forall r ensures Start(n).issued[r] == Copies(Start(n), r) {
      InBuffersEmpty(Start(n).clients, r);
    }
  }

  lemma HeadAndTail(ring: seq<Request>)
    requires ring != []
    ensures multiset(ring) == multiset{ring[0]} + multiset(ring[1..])
  {
    assert ring == [ring[0]] + ring[1..];
  }

  /** A server step takes the head of one ring or nothing. */
  lemma ServerTakes(cfg: Config, s: Shared, counted: bool)
    requires Server(cfg, s, counted).Some?
    ensures var t := Server(cfg, s, counted).value;
            && t.clients == s.clients && t.issued == s.issued
            && ((t.req == s.req && t.urgent == s.urgent && t.taken == s.taken)
                || (s.req != [] && t.req == s.req[1..] && t.urgent == s.urgent
                    && t.taken == s.taken + [s.req[0]])
                || (s.urgent != [] && t.urgent == s.urgent[1..] && t.req == s.req
                    && t.taken == s.taken + [s.urgent[0]]))
  {
    match s.server
    case DrainUrgent(_) =>
    case DrainReq(_) =>
    case FinalUrgent =>
    case FinalReq =>
    case _ =>
  }

  lemma ServerConserves(cfg: Config, s: Shared, counted: bool)
    requires Conserved(s) && Server(cfg, s, counted).Some?
    ensures Conserved(Server(cfg, s, counted).value)
  {
    ServerTakes(cfg, s, counted);
    var t := Server(cfg, s, counted).value;
    if t.req != s.req {
      HeadAndTail(s.req);
      assert multiset(t.taken) == multiset(s.taken) + multiset{s.req[0]};
    }
    if t.urgent != s.urgent {
      HeadAndTail(s.urgent);
      assert multiset(t.taken) == multiset(s.taken) + multiset{s.urgent[0]};
    }
  }

  lemma FlushConserves(s: Shared, c: nat, r: Request)
    requires c < |s.clients| && s.clients[c].buffer != []
    ensures Copies(Flush(s, c), r) == Copies(s, r)
  {
    var q := s.clients[c].buffer[0];
    InBuffersUpdate(s.clients, c, Flush(s, c).clients[c], r);
    HeadAndTail(s.clients[c].buffer);
    assert multiset(s.req + [q])[r] == multiset(s.req)[r] + multiset{q}[r];
    assert multiset(s.urgent + [q])[r] == multiset(s.urgent)[r] + multiset{q}[r];
  }

  lemma IssueConserves(s: Shared, c: nat, ch: Channel, r: Request)
    requires c < |s.clients|
    ensures Copies(Issue(s, c, ch), r) == Copies(s, r) + multiset{Request(c, s.clients[c].sent, ch)}[r]
  {
    InBuffersUpdate(s.clients, c, Issue(s, c, ch).clients[c], r);
  }

  lemma ClientConserves(cfg: Config, s: Shared, a: Action, r: Request)
    requires s.issued[r] == Copies(s, r)
    requires !a.ServerStep? && !a.FlushServer? && Step(cfg, s, a).Some?
    ensures var t := Step(cfg, s, a).value; t.issued[r] == Copies(t, r)
  {
    var t := Step(cfg, s, a).value;
    match a
    case Send(c, ch) => IssueConserves(s, c, ch, r);
    case FlushClient(c) => FlushConserves(s, c, r);
    case PassFence(c) => InBuffersUpdate(s.clients, c, t.clients[c], r);
    case ReadBusy(c) => InBuffersUpdate(s.clients, c, t.clients[c], r);
    case Ring(c) => InBuffersUpdate(s.clients, c, t.clients[c], r);
  }

  lemma ConservedStep(cfg: Config, s: Shared, a: Action)
    requires Conserved(s) && Step(cfg, s, a).Some?
    ensures Conserved(Step(cfg, s, a).value)
  {
    var t := Step(cfg, s, a).value;
    match a
    case ServerStep(counted) => ServerConserves(cfg, s, counted);
    case FlushServer =>
    case _ =>
      forall r ensures t.issued[r] == Copies(t, r) {
        ClientConserves(cfg, s, a, r);
      }
  }

  lemma IssuedOnceStep(cfg: Config, s: Shared, a: Action)
    requires IssuedOnce(s) && Step(cfg, s, a).Some?
    ensures IssuedOnce(Step(cfg, s, a).value)
  {
    match a
    case ServerStep(counted) => ServerTakes(cfg, s, counted);
    case FlushServer =>
    case Send(c, ch) =>
      assert Request(c, s.clients[c].sent, ch) !in s.issued;
    case _ =>
  }
}
