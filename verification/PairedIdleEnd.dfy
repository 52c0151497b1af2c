/** What one idle end can do to a paired run: the server leaves while the client's answer is
    on its way, and the client is never told. */
module PairedIdleEnd {
  import opened Wire
  import opened Bargain
  import opened Pairing
  import opened PairingInv
  import opened PairingTheorems
  import C = ClientTcp
  import S = Session

  /** One more action behind an execution. */
  lemma {:induction false} Then(cfg: Config, y0: System, acts: seq<Action>, a: Action)
    returns (acts': seq<Action>, y: System)
    ensures acts' == acts + [a]
    ensures y == Exec(cfg, y0, acts') == Step(cfg, Exec(cfg, y0, acts), a)
    decreases |acts|
  {
    hide Step;
    acts' := acts + [a];
    y := Exec(cfg, y0, acts');
    if acts == [] {
      assert Exec(cfg, y0, [a]) == Exec(cfg, Step(cfg, y0, a), []);
    } else {
      var rest, _ := Then(cfg, Step(cfg, y0, acts[0]), acts[1..], a);
      assert acts'[1..] == rest;
    }
  }

  /** The session and the records after a step of the run loop. */
  lemma RunOnce(cfg: Config, y: System)
    requires y.session.Some? && y.session.value.pc != S.Exited
    ensures var (s, out) := S.RunStep(cfg.Server(), y.session.value);
            && (out == [] ==> Step(cfg, y, Server(S.Run)) == y.(session := Some(s)))
            && (out != [] && out[0].mtype == NEGO_MSG ==>
                  Step(cfg, y, Server(S.Run))
                  == y.(session := Some(s), toClient := y.toClient + [Pdu(NEGO_MSG, cfg.sid, out[0].data)],
                        offers := y.offers + [Offer(ServerSide, ParseObjective(out[0].data))]))
  {
    hide S.RunStep, ParseObjective;
    assert y.toClient + [] == y.toClient;
  }

  /** `acts'` is `acts` and some steps of the run loop. */
  predicate OnlyRuns(acts: seq<Action>, acts': seq<Action>) {
    acts <= acts' && forall i | |acts| <= i < |acts'| :: acts'[i] == Server(S.Run)
  }

  lemma NoRunsYet(acts: seq<Action>)
    ensures OnlyRuns(acts, acts)
  {
  }

  /** One more step of the run loop behind an execution. */
  lemma RunMore(cfg: Config, y0: System, base: seq<Action>, acts: seq<Action>, y: System)
    returns (acts': seq<Action>, y': System)
    requires OnlyRuns(base, acts)
    requires y == Exec(cfg, y0, acts) && y.session.Some? && y.session.value.pc != S.Exited
    ensures acts' == acts + [Server(S.Run)] && y' == Exec(cfg, y0, acts') && OnlyRuns(base, acts')
    ensures var (s, out) := S.RunStep(cfg.Server(), y.session.value);
            && (out == [] ==> y' == y.(session := Some(s)))
            && (out != [] && out[0].mtype == NEGO_MSG ==>
                  y' == y.(session := Some(s), toClient := y.toClient + [Pdu(NEGO_MSG, cfg.sid, out[0].data)],
                           offers := y.offers + [Offer(ServerSide, ParseObjective(out[0].data))]))
  {
    hide S.RunStep, Exec, Step, ParseObjective;
    RunOnce(cfg, y);
    acts', y' := Then(cfg, y0, acts, Server(S.Run));
  }

  /** From the loop head to the ASA with the content c. */
  lemma ServeUpToAsa(cfg: Config, y0: System, acts: seq<Action>, y: System, c: Content)
    returns (acts': seq<Action>, y': System)
    requires y == Exec(cfg, y0, acts) && y.session.Some?
    requires var s := y.session.value;
             s.pc == S.Head && s.state == S.IDLE && s.queue == [c] && !S.Same(cfg.filter, c, s.last)
    requires S.CarriesObjective(c.mtype)
    ensures y' == Exec(cfg, y0, acts') && OnlyRuns(acts, acts')
    ensures var s := y.session.value;
            y' == y.(session := Some(s.(pc := S.Work(c), state := S.PROCESSING, queue := [], last := c,
                                        waiters := s.waiters + 1)))
  {
    hide Exec, Step, S.Same, S.Reply, S.VerdictIn, ParseObjective, OnlyRuns;
    y' := y;
    acts' := acts;
    NoRunsYet(acts);
    acts', y' := RunMore(cfg, y0, acts, acts', y');
    acts', y' := RunMore(cfg, y0, acts, acts', y');
    assert y'.session.value.pc == S.SetRead(c);
    acts', y' := RunMore(cfg, y0, acts, acts', y');
    acts', y' := RunMore(cfg, y0, acts, acts', y');
    acts', y' := RunMore(cfg, y0, acts, acts', y');
    assert y'.session.value.pc == S.Live(c);
    acts', y' := RunMore(cfg, y0, acts, acts', y');
  }

  /** From the ASA to the loop head with the counter-offer written. */
  lemma CounterAndRest(cfg: Config, y0: System, acts: seq<Action>, y: System, c: Content)
    returns (acts': seq<Action>, y': System)
    requires y == Exec(cfg, y0, acts) && y.session.Some? && y.session.value.pc == S.Work(c)
    requires S.Reply(cfg.game.server, c).mtype == NEGO_MSG
    ensures y' == Exec(cfg, y0, acts') && OnlyRuns(acts, acts')
    ensures var s := y.session.value;
            var r := S.Reply(cfg.game.server, c);
            y' == y.(session := Some(s.(pc := S.Head, state := S.IDLE, enders := s.enders + 1)),
                     toClient := y.toClient + [Pdu(NEGO_MSG, cfg.sid, r.data)],
                     offers := y.offers + [Offer(ServerSide, ParseObjective(r.data))])
  {
    hide Exec, Step, S.Same, S.Reply, S.VerdictIn, ParseObjective, OnlyRuns;
    y' := y;
    acts' := acts;
    NoRunsYet(acts);
    acts', y' := RunMore(cfg, y0, acts, acts', y');
    acts', y' := RunMore(cfg, y0, acts, acts', y');
    assert y'.session.value.pc == S.SendWrite(c);
    acts', y' := RunMore(cfg, y0, acts, acts', y');
    acts', y' := RunMore(cfg, y0, acts, acts', y');
  }

  /** The server counters the opening offer and polls. */
  lemma ToFirstCounter(cfg: Config, y0: System, w: Value) returns (acts: seq<Action>, y: System)
    requires cfg.Valid() && Initial(cfg, y0) && OpeningIsNew(cfg, y0.client)
    requires ServerMove(cfg.game, cfg.v0, cfg.n) == Counter(w)
    ensures y == Exec(cfg, y0, acts) && NoIdleEnd(acts)
    ensures Undecided(y.client) && y.toServer == [] && y.ends == []
    ensures |y.toClient| == 1 && y.toClient[0].sid == cfg.sid && y.toClient[0].mtype == NEGO_MSG
    ensures IsOffer(cfg, S.Content(NEGO_MSG, y.toClient[0].data), w, cfg.n - 1)
    ensures y.session.Some?
    ensures var s := y.session.value; s.pc == S.Head && s.queue == [] && s.enders == 1 && s.verdict == None
  {
    hide Exec, Step, S.Same, S.Reply, ParseObjective, ParseOption, ObjectiveData, IsOffer, ServerMove;
    var c := Opening(cfg, y0.client);
    OpeningIsOffer(cfg, y0.client);
    ReplyIsServerMove(cfg, c, cfg.v0, cfg.n);
    acts := [];
    assert Exec(cfg, y0, []) == y0 by { ExecOfNone(cfg, y0); }
    Opens(cfg, y0);
    acts, y := Then(cfg, y0, acts, Start);
    Arrives(cfg, y, c);
    acts, y := Then(cfg, y0, acts, Deliver);
    acts, y := ServeUpToAsa(cfg, y0, acts, y, c);
    acts, y := CounterAndRest(cfg, y0, acts, y, c);
  }

  lemma ExecOfNone(cfg: Config, y: System)
    ensures Exec(cfg, y, []) == y
  {
  }

  lemma OpeningIsOffer(cfg: Config, c: C.Client)
    requires cfg.Valid()
    ensures IsOffer(cfg, Opening(cfg, c), cfg.v0, cfg.n)
  {
    hide ParseObjective, ParseOption, ObjectiveData;
  }

  lemma Opens(cfg: Config, y: System)
    requires cfg.Valid() && Initial(cfg, y)
    ensures var y' := Step(cfg, y, Start);
            && Undecided(y'.client) && y'.toClient == [] && y'.ends == [] && y'.session == None
            && y'.toServer == [Pdu(REQUEST_MSG, cfg.sid, Opening(cfg, y.client).data)]
  {
    hide ParseObjective, ParseOption, ObjectiveData;
  }

  lemma Arrives(cfg: Config, y: System, c: Content)
    requires y.toServer == [Pdu(REQUEST_MSG, cfg.sid, c.data)] && c.mtype == REQUEST_MSG && y.session == None
    ensures Step(cfg, y, Deliver) == y.(toServer := [], session := Some(S.Opened(c, cfg.uninit)))
  {
  }

  lemma GoesIdle(cfg: Config, y: System)
    requires y.session.Some? && y.session.value.enders > 0 && y.session.value.pc == S.Head
    ensures var s := y.session.value;
            Step(cfg, y, Server(S.IdleEnd))
            == y.(session := Some(s.(state := S.SESSION_END, enders := s.enders - 1)))
  {
    hide ParseObjective, S.RunStep, WaitData;
    assert y.toClient + [] == y.toClient;
  }

  /** The client counters, and its offer finds nobody. */
  lemma SpeaksToNobody(cfg: Config, y: System, v: Value, m: int)
    requires cfg.Valid() && cfg.game.kind == Negotiation && ClientMove(cfg.game, v, m).Counter?
    requires Undecided(y.client) && y.toServer == [] && |y.toClient| == 1
    requires y.toClient[0].sid == cfg.sid && y.toClient[0].mtype == NEGO_MSG
    requires IsOffer(cfg, S.Content(NEGO_MSG, y.toClient[0].data), v, m)
    requires y.session.Some? && y.session.value.pc == S.Exited
    ensures var y' := Step(cfg, Step(cfg, y, ClientRead), Deliver);
            && Undecided(y'.client) && y'.toServer == [] && y'.toClient == []
            && y'.ends == y.ends && y'.session == y.session
  {
    hide ParseObjective, ParseOption, IsOffer, C.Receive, ClientMove;
    ClientPlays(cfg, y.client, y.toClient[0], v, m);
    var out := C.Receive(cfg.Client(), y.client, y.toClient[0]).1;
    assert y.toServer + out == [out[0]];
  }

  /** The condition of the refinement theorem is needed.  Whenever the opening offer and
      the one behind it are both countered, a single idle end, after the server's first
      counter-offer, leaves an execution with nothing left to do and nothing concluded:
      the session is gone, the client waits, and no NEGO_END was ever written.  The
      filter has no part in it. */
  lemma IdleEndStrandsTheClient(cfg: Config, y0: System, w: Value) returns (acts: seq<Action>)
    requires cfg.Valid() && Initial(cfg, y0) && OpeningIsNew(cfg, y0.client)
    requires ServerMove(cfg.game, cfg.v0, cfg.n) == Counter(w)
    requires ClientMove(cfg.game, w, cfg.n - 1).Counter?
    ensures multiset(acts)[Server(S.IdleEnd)] == 1
    ensures var y := Exec(cfg, y0, acts);
            && Complete(y) && !Concluded(cfg, y)
            && y.session.Some? && y.session.value.pc == S.Exited && y.ends == []
            && y.client.phase == C.Reading && y.client.verdict == None && y.client.configured == []
  {
    hide Exec, Step, S.Same, S.Reply, ParseObjective, ParseOption, IsOffer, ServerMove, ClientMove;
    hide Initial, OpeningIsNew;
    CountersNegotiate(cfg, w);
    var y: System;
    acts, y := ToFirstCounter(cfg, y0, w);
    var before := acts;
    GoesIdle(cfg, y);
    acts, y := Then(cfg, y0, acts, Server(S.IdleEnd));
    NoRunsYet(acts);
    acts, y := RunMore(cfg, y0, acts, acts, y);
    assert y.session.value.pc == S.Exited;
    SpeaksToNobody(cfg, y, w, cfg.n - 1);
    acts, y := Then(cfg, y0, acts, ClientRead);
    acts, y := Then(cfg, y0, acts, Deliver);
    assert acts == before + [Server(S.IdleEnd), Server(S.Run), ClientRead, Deliver];
    assert Server(S.IdleEnd) !in before;
  }

  lemma CountersNegotiate(cfg: Config, w: Value)
    requires cfg.Valid() && ServerMove(cfg.game, cfg.v0, cfg.n) == Counter(w)
    ensures cfg.game.kind == Negotiation
  {
  }

  /** There is such an input: two ASAs that nothing satisfies and the opening count 5. */
  lemma NoIdleEndIsNeeded(v: Value, sid: uint32) returns (cfg: Config, y0: System, acts: seq<Action>)
    ensures cfg.Valid() && Initial(cfg, y0) && OpeningIsNew(cfg, y0.client) && cfg.filter == S.WholeContent
    ensures multiset(acts)[Server(S.IdleEnd)] == 1
    ensures var y := Exec(cfg, y0, acts);
            && Complete(y) && !Concluded(cfg, y)
            && y.session.Some? && y.session.value.pc == S.Exited && y.ends == [] && y.client.phase == C.Reading
  {
    hide Exec, Complete, Concluded;
    var zeros := Zeros(MAX_STRING_LENGTH);
    var g := Game(Negotiation, Stubborn(), Stubborn());
    cfg := Config(g, sid, v, 5, 0, S.WholeContent, _ => Zeros(MAX_STRING_LENGTH), S.Content(WAIT_MSG, zeros), zeros);
    var c := C.Client(C.Idle, 5, 0, OFF, zeros, zeros, None, []);
    y0 := System(c, [], [], None, [], []);
    assert ServerMove(g, v, 5) == Counter(v) && ClientMove(g, v, 4) == Counter(v);
    acts := IdleEndStrandsTheClient(cfg, y0, v);
  }
}
