/** One client and its server session, joined by two FIFO channels.

    An execution is any sequence of actions: the client starting and reading, the
    demultiplexer delivering, every single step of the session's run loop and helper
    threads (module Session), and a network that repeats the client's messages and
    carries other sessions' PDUs.  `Inv` ties every reachable state to a position of
    the game of module Bargain. */
module Pairing {
  import opened Wire
  import opened Bargain
  import C = ClientTcp
  import S = Session

  type Content = S.Content

  /** The constants of a run: the two ASAs, the opening value with its count and
      flag, and the memory the code reads without having written it: `junk` behind
      the client's messages, `uninit` in the filter, `stale` in lastTopOptions. */
  datatype Config = Config(
    game: Game, sid: uint32, v0: Value, n: byte, flag: byte,
    filter: S.Filter, junk: int -> Buffer, uninit: Content, stale: Buffer)
  {
    function Client(): C.ClientCfg { C.ClientCfg(sid, game.kind, game.client, junk) }
    function Server(): S.SessionCfg { S.SessionCfg(game.server, filter) }

    predicate Valid() {
      n >= 1 && (game.kind == Negotiation || game.kind == Synchronization)
    }
  }

  /** The opening REQUEST, printed over what the buffer held before. */
  function Opening(cfg: Config, c: C.Client): Content {
    S.Content(REQUEST_MSG, ObjectiveData(cfg.game.kind, cfg.v0, cfg.n, cfg.flag, c.buffer))
  }

  /** An objective message as it was put on the wire. */
  datatype Offer = Offer(from: Side, option: Objective)

  /** `offers` and `ends` record every objective message and every NEGO_END that
      either side has written, oldest first. */
  datatype System = System(
    client: C.Client, toServer: seq<Pdu>, toClient: seq<Pdu>, session: Maybe<S.Session>,
    offers: seq<Offer>, ends: seq<Side>)

  predicate Initial(cfg: Config, y: System) {
    && y.client.phase == C.Idle && y.client.state == OFF
    && y.client.last == cfg.stale && y.client.verdict == None && y.client.configured == []
    && y.toServer == [] && y.toClient == [] && y.session == None && y.offers == [] && y.ends == []
  }

  datatype Action =
    | Start
    | ClientRead
    | Deliver
    | Server(a: S.Action)
    | Repeat(i: nat)
    | ForeignToServer(p: Pdu)
    | ForeignToClient(p: Pdu)

  predicate Alive(s: Maybe<S.Session>) {
    s.Some? && s.value.pc != S.Exited
  }

  predicate Enabled(cfg: Config, y: System, a: Action) {
    match a
    case Start => y.client.phase == C.Idle
    case ClientRead => y.client.phase == C.Reading && y.toClient != []
    case Deliver => y.toServer != []
    case Server(b) => y.session.Some? && !b.Push? && S.Enabled(y.session.value, b)
    case Repeat(i) => i < |y.toServer| && y.toServer[i].mtype != REQUEST_MSG
    case ForeignToServer(p) => p.sid != cfg.sid
    case ForeignToClient(p) => p.sid != cfg.sid
  }

  /** Enter what `from` has just written into the records. */
  function Record(y: System, from: Side, out: seq<Pdu>): System {
    if out == [] then y
    else if S.CarriesObjective(out[0].mtype) then y.(offers := y.offers + [Offer(from, ParseObjective(out[0].data))])
    else if out[0].mtype == NEGO_END_MSG then y.(ends := y.ends + [from])
    else y
  }

  function Framed(sid: uint32, out: seq<Content>): seq<Pdu> {
    if out == [] then [] else [Pdu(out[0].mtype, sid, out[0].data)]
  }

  /** `distribute`, seen from this session: a REQUEST opens it, anything else joins
      its queue, and what fits neither is dropped. */
  function Distribute(cfg: Config, session: Maybe<S.Session>, p: Pdu): Maybe<S.Session> {
    var c := S.Content(p.mtype, p.data);
    if p.sid != cfg.sid then session
    else if Alive(session) then
      if p.mtype == REQUEST_MSG then session
      else Some(session.value.(queue := session.value.queue + [c]))
    else if p.mtype == REQUEST_MSG then Some(S.Opened(c, cfg.uninit))
    else session
  }

  function Next(cfg: Config, y: System, a: Action): System
    requires Enabled(cfg, y, a)
  {
    match a
    case Start =>
      var (c, out) := C.Begin(cfg.Client(), y.client, cfg.v0, cfg.n, cfg.flag);
      Record(y.(client := c, toServer := y.toServer + out), ClientSide, out)
    case ClientRead =>
      var (c, out) := C.Receive(cfg.Client(), y.client, y.toClient[0]);
      Record(y.(client := c, toClient := y.toClient[1..], toServer := y.toServer + out), ClientSide, out)
    case Deliver =>
      y.(toServer := y.toServer[1..], session := Distribute(cfg, y.session, y.toServer[0]))
    case Server(b) =>
      var (s, out) := S.Next(cfg.Server(), y.session.value, b);
      var pdus := Framed(cfg.sid, out);
      Record(y.(session := Some(s), toClient := y.toClient + pdus), ServerSide, pdus)
    case Repeat(i) => y.(toServer := y.toServer[..i + 1] + y.toServer[i..])
    case ForeignToServer(p) => y.(toServer := y.toServer + [p])
    case ForeignToClient(p) => y.(toClient := y.toClient + [p])
  }

  function Step(cfg: Config, y: System, a: Action): System {
    if Enabled(cfg, y, a) then Next(cfg, y, a) else y
  }

  function Exec(cfg: Config, y: System, acts: seq<Action>): System
    decreases |acts|
  {
    if acts == [] then y else Exec(cfg, Step(cfg, y, acts[0]), acts[1..])
  }

  /** Nothing is left to do: the client is not about to start, has nothing to read
      or has returned, and the server side is idle on empty queues. */
  predicate Complete(y: System) {
    && y.client.phase != C.Idle
    && (y.client.phase == C.Reading ==> y.toClient == [])
    && y.toServer == []
    && (y.session.Some? ==>
          || y.session.value.pc == S.Exited
          || ((y.session.value.pc == S.Head || y.session.value.pc == S.Pop)
              && y.session.value.queue == [] && y.session.value.state != S.SESSION_END))
  }

  // ---------- the network does what it may ----------

  /** A copy that the network makes of a message of the client's reaches the queue of a
      live session as well as the message itself. */
  lemma CopyReachesQueue(cfg: Config, y: System)
    requires |y.toServer| == 1 && y.toServer[0].sid == cfg.sid && y.toServer[0].mtype != REQUEST_MSG
    requires Alive(y.session)
    ensures var c := S.Content(y.toServer[0].mtype, y.toServer[0].data);
            var s := y.session.value;
            Exec(cfg, y, [Repeat(0), Deliver, Deliver])
            == y.(toServer := [], session := Some(s.(queue := s.queue + [c, c])))
  {
    var c := S.Content(y.toServer[0].mtype, y.toServer[0].data);
    var s := y.session.value;
    var y1 := Step(cfg, y, Repeat(0));
    assert y1.toServer == [y.toServer[0], y.toServer[0]];
    var y2 := Step(cfg, y1, Deliver);
    assert y2.toServer == [y.toServer[0]];
    var y3 := Step(cfg, y2, Deliver);
    assert (s.queue + [c]) + [c] == s.queue + [c, c];
    ExecOfThree(cfg, y, Repeat(0), Deliver, Deliver);
  }

  lemma ExecOfThree(cfg: Config, y: System, a: Action, b: Action, c: Action)
    ensures Exec(cfg, y, [a, b, c]) == Step(cfg, Step(cfg, Step(cfg, y, a), b), c)
  {
    hide Step;
    assert [a, b, c][1..] == [b, c] && [b, c][1..] == [c] && [c][1..] == [];
    assert Exec(cfg, y, [a, b, c]) == Exec(cfg, Step(cfg, y, a), [b, c]);
    assert Exec(cfg, Step(cfg, y, a), [b, c]) == Exec(cfg, Step(cfg, Step(cfg, y, a), b), [c]);
  }

  /** A PDU of another session is delivered and read like any other: the demultiplexer
      drops it, the client's buffer is overwritten, and that is all. */
  lemma ForeignIsCarried(cfg: Config, y: System, p: Pdu)
    requires p.sid != cfg.sid && y.toServer == [] && y.toClient == [] && y.client.phase == C.Reading
    ensures Enabled(cfg, Step(cfg, y, ForeignToServer(p)), Deliver)
    ensures Step(cfg, Step(cfg, y, ForeignToServer(p)), Deliver) == y
    ensures Step(cfg, Step(cfg, y, ForeignToClient(p)), ClientRead) == y.(client := y.client.(buffer := p.data))
  {
    hide ParseObjective, ParseOption;
    assert y.toServer + [p] == [p] && y.toClient + [p] == [p];
    assert [p][1..] == [] && y.toServer + [] == y.toServer;
  }
}
