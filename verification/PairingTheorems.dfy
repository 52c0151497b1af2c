/** What every execution of the paired system keeps, and what a complete one ends in. */
module PairingTheorems {
  import opened Wire
  import opened Bargain
  import opened Pairing
  import opened PairingInv
  import opened PairingSteps
  import C = ClientTcp
  import S = Session

  lemma InitialFits(cfg: Config, y: System)
    requires cfg.Valid() && Initial(cfg, y)
    ensures Inv(cfg, y, Unopened)
  {
  }

  lemma {:induction false} ExecKeepsInv(cfg: Config, y: System, pos: Position, acts: seq<Action>)
    returns (pos': Position)
    requires cfg.Valid() && Inv(cfg, y, pos)
    ensures Inv(cfg, Exec(cfg, y, acts), pos')
    decreases |acts|
  {
    hide Inv, Step;
    pos' := pos;
    if acts != [] {
      var mid := StepKeepsInv(cfg, y, pos, acts[0]);
      pos' := ExecKeepsInv(cfg, Step(cfg, y, acts[0]), mid, acts[1..]);
    }
  }

  lemma Reached(cfg: Config, y0: System, acts: seq<Action>) returns (pos: Position)
    requires cfg.Valid() && Initial(cfg, y0)
    ensures Inv(cfg, Exec(cfg, y0, acts), pos)
  {
    hide Inv, Exec;
    InitialFits(cfg, y0);
    pos := ExecKeepsInv(cfg, y0, Unopened, acts);
  }

  // ---------- any execution, idle ends included ----------

  /** Agreement.  A side that announces a verdict announces the game's, so the two can
      never contradict each other; at most one NEGO_END is written, by the side that
      decides in the game. */
  lemma VerdictsAreTheGames(cfg: Config, y0: System, acts: seq<Action>)
    requires cfg.Valid() && Initial(cfg, y0)
    ensures var y := Exec(cfg, y0, acts);
            var goal := Play(cfg.game, ServerSide, cfg.v0, cfg.n);
            && (y.client.verdict.Some? ==> y.client.verdict == Some(goal.verdict))
            && (y.session.Some? && y.session.value.verdict.Some? ==> y.session.value.verdict == Some(goal.verdict))
            && (y.ends == [] || y.ends == [goal.decider])
            && (y.ends != [] ==> |y.offers| == goal.offers && y.offers[goal.offers - 1].option.value == goal.last)
  {
    hide ParseObjective, ParseOption, S.Same, S.Reply, S.Fresh, Play, IsOffer, Tells, Own, Telling, Exec;
    var pos := Reached(cfg, y0, acts);
  }

  /** The loop count bounds the bargaining: the k-th objective message on the wire
      (from 0) comes from the client if k is even, carries n - k, hence never 0, and
      there are no more of them than the game has offers, at most n.  No two of them
      are equal, so a filter on whole contents drops copies only. */
  lemma CountsBoundOffers(cfg: Config, y0: System, acts: seq<Action>)
    requires cfg.Valid() && Initial(cfg, y0)
    ensures var y := Exec(cfg, y0, acts);
            && |y.offers| <= Play(cfg.game, ServerSide, cfg.v0, cfg.n).offers <= cfg.n
            && forall k | 0 <= k < |y.offers| ::
                 && y.offers[k].from == (if k % 2 == 0 then ClientSide else ServerSide)
                 && y.offers[k].option.loopCount == cfg.n - k >= 1
                 && y.offers[k].option.flag == cfg.flag
                 && y.offers[k].option.kind == cfg.game.kind
    ensures var y := Exec(cfg, y0, acts);
            forall j, k | 0 <= j < k < |y.offers| :: y.offers[j].option != y.offers[k].option
  {
    hide ParseObjective, ParseOption, S.Same, S.Reply, S.Fresh, Play, IsOffer, Tells, Own, Telling, Exec;
    var pos := Reached(cfg, y0, acts);
  }

  /** do_configuration.  A client that accepts configures exactly one value.  It is the
      last one put on the wire exactly if the server counters the opening REQUEST; if
      it accepts that, it is whatever lastTopOptions still held, because send_tcp fills
      that only afterwards, and memory may happen to hold the value. */
  lemma ConfiguredExactly(cfg: Config, y0: System, acts: seq<Action>)
    requires cfg.Valid() && Initial(cfg, y0)
    requires Exec(cfg, y0, acts).client.verdict == Some(Accepted)
    ensures var y := Exec(cfg, y0, acts);
            && |y.offers| >= 1 && |y.client.configured| == 1
            && (y.client.configured == [y.offers[|y.offers| - 1].option.value]
                <==> ServerMove(cfg.game, cfg.v0, cfg.n).Counter? || ParseObjective(cfg.stale).value == cfg.v0)
  {
    hide ParseObjective, ParseOption, S.Same, S.Reply, S.Fresh, Play, IsOffer, Tells, Own, Telling, Exec, ServerMove;
    var pos := Reached(cfg, y0, acts);
    PlayEndsAtFirstStop(cfg.game, ServerSide, cfg.v0, cfg.n);
    assert Stops(cfg.game, ServerSide, cfg.v0, cfg.n, 0) <==> ServerMove(cfg.game, cfg.v0, cfg.n).Decide?;
  }

  /** Turn parity: running out of counts is the server's decision if the opening count
      is odd (`negotiate` opens with 5), and the client's if it is even. */
  lemma ExhaustionFollowsParity(cfg: Config, y0: System, acts: seq<Action>)
    requires cfg.Valid() && Initial(cfg, y0)
    requires var y := Exec(cfg, y0, acts);
             || y.client.verdict == Some(Declined)
             || (y.session.Some? && y.session.value.verdict == Some(Declined))
    ensures var y := Exec(cfg, y0, acts);
            y.ends == [] || y.ends == [if cfg.n % 2 == 1 then ServerSide else ClientSide]
    ensures |Exec(cfg, y0, acts).offers| == cfg.n
  {
    hide Exec;
    VerdictsAreTheGames(cfg, y0, acts);
    ExhaustionParity(cfg.game, cfg.v0, cfg.n);
    DeclineAtLastOffer(cfg, y0, acts);
  }

  lemma DeclineAtLastOffer(cfg: Config, y0: System, acts: seq<Action>)
    requires cfg.Valid() && Initial(cfg, y0)
    requires var y := Exec(cfg, y0, acts);
             || y.client.verdict == Some(Declined)
             || (y.session.Some? && y.session.value.verdict == Some(Declined))
    ensures |Exec(cfg, y0, acts).offers| == cfg.n
  {
    hide ParseObjective, ParseOption, S.Same, S.Reply, S.Fresh, IsOffer, Tells, Own, Telling, Exec;
    var pos := Reached(cfg, y0, acts);
  }

  /** Nobody decides upon any of the first four offers, and the count allows a fifth. */
  predicate LongGame(cfg: Config) {
    cfg.n >= 5 && forall k: nat | k < 4 :: !Stops(cfg.game, ServerSide, cfg.v0, cfg.n, k)
  }

  lemma LongGameExactly(cfg: Config)
    requires cfg.Valid()
    ensures LongGame(cfg) <==> Goal(cfg).offers >= 5
  {
    hide Stops, Play;
    OffersAtMost(cfg.game, ServerSide, cfg.v0, cfg.n, 4);
  }

  /** The filter as compiled.  With strcmp, if nobody decides upon one of the first four
      offers, no execution at all lets either side announce a verdict or write a
      NEGO_END. */
  lemma StrcmpSilencesLongGames(cfg: Config, y0: System, acts: seq<Action>)
    requires cfg.Valid() && Initial(cfg, y0)
    requires cfg.filter == S.CStringContent && LongGame(cfg)
    ensures var y := Exec(cfg, y0, acts);
            && y.client.verdict == None && y.client.configured == [] && y.ends == []
            && (y.session.Some? ==> y.session.value.verdict == None)
  {
    hide ParseObjective, ParseOption, S.Same, S.Reply, S.Fresh, Play, IsOffer, Tells, Own, Telling, Exec, LongGame;
    LongGameExactly(cfg);
    var pos := Reached(cfg, y0, acts);
  }

  /** Such a game exists, and the filter makes the difference: two ASAs that nothing
      satisfies and the opening count 5 of `negotiate`.  With strcmp the client hears
      nothing in any execution; with whole contents every complete execution without
      an idle end tells both sides that the server declined. */
  lemma StubbornAsasAreSilenced(cfg: Config, y0: System, acts: seq<Action>)
    requires cfg.game == Game(Negotiation, Stubborn(), Stubborn()) && cfg.n == 5
    requires Initial(cfg, y0) && OpeningIsNew(cfg, y0.client)
    ensures var y := Exec(cfg, y0, acts);
            if cfg.filter == S.CStringContent then
              y.client.verdict == None && y.client.configured == [] && y.ends == []
            else
              NoIdleEnd(acts) && Complete(y) ==>
                && y.client.verdict == Some(Declined) && y.session.Some? && y.session.value.verdict == Some(Declined)
                && y.ends == [ServerSide]
  {
    hide Exec, Initial, OpeningIsNew, Complete, Play, LongGame;
    StubbornGame(cfg.v0);
    if cfg.filter == S.CStringContent {
      LongGameExactly(cfg);
      StrcmpSilencesLongGames(cfg, y0, acts);
    } else if NoIdleEnd(acts) && Complete(Exec(cfg, y0, acts)) {
      CompleteRunsPlayTheGame(cfg, y0, acts);
    }
  }

  // ---------- executions without an idle end ----------

  predicate NoIdleEnd(acts: seq<Action>) {
    forall a | a in acts :: a != Server(S.IdleEnd)
  }

  /** The state that each point of the run loop sees if no end thread fires. */
  predicate StateMatches(s: S.Session) {
    match s.pc
    case Head => s.state == S.IDLE || s.state == S.SESSION_END
    case Exited => s.state == S.SESSION_END
    case Final(_) => s.state == S.SESSION_END
    case Spawn(c) => s.state == if c.mtype == NEGO_END_MSG then S.SESSION_END else S.PROCESSING
    case Live(c) => s.state == if c.mtype == NEGO_END_MSG then S.SESSION_END else S.PROCESSING
    case Work(_) => s.state == S.PROCESSING
    case _ => s.state == S.IDLE
  }

  /** A session that is over has written or heard the NEGO_END. */
  predicate Steady(w: View) {
    w.session.Some? ==>
      var s := w.session.value;
      && StateMatches(s)
      && (s.pc.Final? || AtEnd(s) ==> w.ends != [] && (w.ends == [ClientSide] ==> s.verdict.Some?))
  }

  predicate Processing(s: S.Session) {
    s.pc.SetRead? || s.pc.SetWrite? || s.pc.Spawn? || s.pc.Live? || s.pc.Work? || s.pc.SendRead? || s.pc.SendWrite?
  }

  /** A reading client has something coming. */
  predicate Awaited(cfg: Config, w: View) {
    w.client.phase == C.Reading ==>
      w.told != [] || Pending(cfg, w) != [] || (w.session.Some? && Processing(w.session.value))
  }

  /** What the invariant says about the content in the run loop's hands. */
  predicate InHand(cfg: Config, w: View)
    requires w.session.Some?
  {
    var s := w.session.value;
    && S.SafeState(s)
    && (s.pc.SetRead? || s.pc.SetWrite? || s.pc.Spawn? || s.pc.Live? ==>
          || S.CarriesObjective(s.pc.c.mtype)
          || (s.pc.c.mtype == NEGO_END_MSG && S.VerdictIn(s.pc.c.data).Some? && w.ends != []))
    && (s.pc.SendSet? && S.Reply(cfg.game.server, s.pc.c).mtype == NEGO_END_MSG ==> w.ends == [ServerSide])
  }

  lemma FitsInHand(cfg: Config, w: View, pos: Position)
    requires cfg.Valid() && Fits(cfg, w, pos) && w.session.Some?
    ensures InHand(cfg, w)
  {
    hide ParseObjective, ParseOption, S.Same, S.Reply, S.VerdictIn, S.Fresh, Play, IsOffer;
    match pos
    case Decided(decider, verdict, v, c) => if decider == ClientSide { EndTells(c, verdict); }
    case Table(to, v, m, c) => if to == ServerSide { OfferTellsNothing(cfg, c, v, m); }
    case _ =>
  }

  lemma RunKeepsSteady(cfg: Config, w: View)
    requires w.session.Some? && w.session.value.pc != S.Exited && InHand(cfg, w) && Steady(w)
    ensures Steady(RunView(cfg, w))
  {
    hide ParseObjective, ParseOption, S.Same, S.Reply, S.VerdictIn;
  }

  lemma EndedIsTold(cfg: Config, w: View, pos: Position)
    requires cfg.Valid() && Fits(cfg, w, pos) && w.ends != [] && w.client.phase == C.Reading
    ensures w.told != []
  {
    hide ParseObjective, ParseOption, S.Same, S.Reply, S.Fresh, Play, IsOffer, Tells, Answered;
  }

  /** The run loop drops nothing that the client waits for. */
  lemma RunKeepsAwaited(cfg: Config, w: View, pos: Position)
    requires cfg.Valid() && Fits(cfg, w, pos) && w.session.Some? && w.session.value.pc != S.Exited
    requires Steady(w) && Awaited(cfg, w)
    ensures Awaited(cfg, RunView(cfg, w))
  {
    hide ParseObjective, ParseOption, S.Same, S.Reply, S.VerdictIn, S.Fresh, Fits;
    var s := w.session.value;
    FitsInHand(cfg, w, pos);
    if w.client.phase == C.Reading && w.told == [] {
      if w.ends != [] { EndedIsTold(cfg, w, pos); }
      if s.pc.Pop? { PopPending(cfg, w); }
      else if !Processing(s) { assert RunView(cfg, w).session.value.queue == s.queue; }
    }
  }

  /** The opening REQUEST is not what last_content happens to hold. */
  predicate OpeningIsNew(cfg: Config, c: C.Client) {
    !S.Same(cfg.filter, Opening(cfg, c), cfg.uninit)
  }

  /** The filter lets this offer of the client's through: always if it compares whole
      contents, and if it uses strcmp while the client has written one NEGO at most. */
  lemma FilterPasses(cfg: Config, w: View, sent: Content, u: Value, m: int)
    requires w.session.Some? && Answered(cfg, |w.offers|, w.session.value.last, m + 1)
    requires sent.mtype == NEGO_MSG && IsOffer(cfg, sent, u, m - 1)
    requires cfg.filter == S.WholeContent || |w.offers| == 2
    ensures !S.Same(cfg.filter, sent, w.session.value.last)
  {
    hide ParseObjective, ParseOption;
  }

  lemma ClientReadKeepsAwaited(cfg: Config, y: System, pos: Position)
    requires cfg.Valid() && Inv(cfg, y, pos) && Enabled(cfg, y, ClientRead)
    requires Steady(ViewOf(cfg.sid, y)) && Awaited(cfg, ViewOf(cfg.sid, y))
    requires cfg.filter == S.WholeContent || |Next(cfg, y, ClientRead).offers| <= 4
    ensures Awaited(cfg, ViewOf(cfg.sid, Next(cfg, y, ClientRead)))
  {
    hide Fits, ParseObjective, ParseOption, C.Receive, IsOffer, Tells, S.Fresh, Own, S.Same, Resting, ClientMove;
    hide Answered;
    var w := ViewOf(cfg.sid, y);
    var p := y.toClient[0];
    var y' := Next(cfg, y, ClientRead);
    if p.sid != cfg.sid || p.mtype == WAIT_MSG {
      ClientSkips(cfg, y.client, p) by { WaitsAreTimed(cfg, y, pos); }
      assert Telling(cfg.sid, y.toClient) == Telling(cfg.sid, y'.toClient);
      assert y.toServer + [] == y.toServer;
    } else if y'.client.phase == C.Reading {
      ToldStep(cfg, y, pos);
      ToldHead(cfg, w, pos);
      if pos.Table? {
        ClientPlays(cfg, y.client, p, pos.v, pos.m);
        var out := C.Receive(cfg.Client(), y.client, p).1;
        var sent := S.Content(out[0].mtype, out[0].data);
        OwnOfAppend(cfg.sid, y.toServer, out);
        OwnOfOne(cfg.sid, out);
        TableOfSteady(cfg, w, pos);
        PendingOfSend(cfg, w, sent);
        match ClientMove(cfg.game, pos.v, pos.m)
        case Counter(u) => FilterPasses(cfg, w, sent, u, pos.m);
        case Decide(_) =>
      } else {
        ClientHears(cfg, y.client, p, pos.verdict);
      }
    }
  }

  lemma WaitsAreTimed(cfg: Config, y: System, pos: Position)
    requires cfg.Valid() && Inv(cfg, y, pos) && y.toClient != []
    ensures var p := y.toClient[0]; p.sid == cfg.sid && p.mtype == WAIT_MSG ==> ParseOption(p.data).kind == WaitingTime
  {
    hide Fits, ParseOption;
  }

  lemma TableOfSteady(cfg: Config, w: View, pos: Position)
    requires cfg.Valid() && Fits(cfg, w, pos) && Steady(w) && pos.Table? && pos.to == ClientSide
    ensures w.session.Some? && Pending(cfg, w) == [] && Answered(cfg, |w.offers|, w.session.value.last, pos.m + 1)
    ensures |w.offers| >= 2 && |w.offers| % 2 == 0
  {
    hide ParseObjective, ParseOption, S.Same, S.Reply, S.Fresh, Play, IsOffer, Tells;
  }

  lemma DeliverKeepsAwaited(cfg: Config, y: System, pos: Position)
    requires cfg.Valid() && Inv(cfg, y, pos) && y.toServer != []
    requires Steady(ViewOf(cfg.sid, y)) && Awaited(cfg, ViewOf(cfg.sid, y))
    ensures Steady(ViewOf(cfg.sid, Next(cfg, y, Deliver))) && Awaited(cfg, ViewOf(cfg.sid, Next(cfg, y, Deliver)))
  {
    hide Fits, S.Fresh, Telling, S.Same;
    var w, y' := ViewOf(cfg.sid, y), Next(cfg, y, Deliver);
    var p := y.toServer[0];
    var c := S.Content(p.mtype, p.data);
    OwnShape(cfg, w, pos);
    OverIsTold(cfg, w, pos);
    if p.sid == cfg.sid {
      assert Own(cfg.sid, y.toServer) == [c] + Own(cfg.sid, y'.toServer);
      assert c in Own(cfg.sid, y.toServer);
      if y.session.Some? {
        var s := y.session.value;
        assert (s.queue + [c]) + Own(cfg.sid, y'.toServer) == s.queue + Own(cfg.sid, y.toServer);
      }
    } else {
      assert Own(cfg.sid, y.toServer) == Own(cfg.sid, y'.toServer);
    }
  }

  lemma OverIsTold(cfg: Config, w: View, pos: Position)
    requires cfg.Valid() && Fits(cfg, w, pos) && Steady(w)
    ensures w.session.Some? && w.session.value.pc == S.Exited && w.client.phase == C.Reading ==> w.told != []
  {
    hide ParseObjective, ParseOption, S.Same, S.Reply, S.Fresh, Play, IsOffer, Tells;
  }

  predicate Progressing(cfg: Config, y: System) {
    && Steady(ViewOf(cfg.sid, y)) && Awaited(cfg, ViewOf(cfg.sid, y))
    && (y.client.phase == C.Idle ==> OpeningIsNew(cfg, y.client))
  }

  lemma StartKeepsProgressing(cfg: Config, y: System)
    requires cfg.Valid() && Inv(cfg, y, Unopened) && Progressing(cfg, y)
    ensures Progressing(cfg, Next(cfg, y, Start))
  {
    hide ParseObjective, ParseOption, ObjectiveData, Play, S.Same;
    var p := C.Begin(cfg.Client(), y.client, cfg.v0, cfg.n, cfg.flag).1[0];
    var c := S.Content(p.mtype, p.data);
    OwnOfAppend(cfg.sid, y.toServer, [p]);
    assert Own(cfg.sid, y.toServer + [p]) == [c];
  }

  lemma ForeignKeepsView(cfg: Config, y: System, p: Pdu)
    requires p.sid != cfg.sid
    ensures ViewOf(cfg.sid, y.(toServer := y.toServer + [p])) == ViewOf(cfg.sid, y)
    ensures ViewOf(cfg.sid, y.(toClient := y.toClient + [p])) == ViewOf(cfg.sid, y)
  {
    OwnOfAppend(cfg.sid, y.toServer, [p]);
    TellingOfAppend(cfg.sid, y.toClient, [p]);
  }

  lemma HelperKeepsProgressing(cfg: Config, y: System, b: S.Action)
    requires Enabled(cfg, y, Server(b)) && b != S.Run && b != S.IdleEnd && Progressing(cfg, y)
    ensures Progressing(cfg, Next(cfg, y, Server(b)))
  {
    hide ParseObjective, ParseOption, WaitData, Own, S.Fresh, S.Same, OpeningIsNew;
    var out := S.Next(cfg.Server(), y.session.value, b).1;
    TellingOfAppend(cfg.sid, y.toClient, Framed(cfg.sid, out));
  }

  lemma StepKeepsProgressing(cfg: Config, y: System, pos: Position, a: Action)
    requires cfg.Valid() && Inv(cfg, y, pos) && Progressing(cfg, y) && a != Server(S.IdleEnd)
    requires cfg.filter == S.WholeContent || |Step(cfg, y, a).offers| <= 4
    ensures Progressing(cfg, Step(cfg, y, a))
  {
    hide Fits, S.Fresh, S.Same, Own, Telling, OpeningIsNew, Awaited, Steady;
    if Enabled(cfg, y, a) {
      match a
      case Start =>
        StartsUnopened(cfg, ViewOf(cfg.sid, y), pos);
        StartKeepsProgressing(cfg, y);
      case ClientRead => ReadKeepsProgressing(cfg, y, pos);
      case Deliver => DeliverKeepsAwaited(cfg, y, pos);
      case Server(b) =>
        if b == S.Run {
          RunMatchesView(cfg, y);
          FitsInHand(cfg, ViewOf(cfg.sid, y), pos);
          RunKeepsSteady(cfg, ViewOf(cfg.sid, y));
          RunKeepsAwaited(cfg, ViewOf(cfg.sid, y), pos);
        } else {
          HelperKeepsProgressing(cfg, y, b);
        }
      case Repeat(i) => RepeatKeepsProgressing(cfg, y, pos, i);
      case ForeignToServer(p) => ForeignKeepsView(cfg, y, p);
      case ForeignToClient(p) => ForeignKeepsView(cfg, y, p);
    }
  }

  lemma StartsUnopened(cfg: Config, w: View, pos: Position)
    requires cfg.Valid() && Fits(cfg, w, pos) && w.client.phase == C.Idle
    ensures pos == Unopened
  {
  }

  lemma ReadKeepsProgressing(cfg: Config, y: System, pos: Position)
    requires cfg.Valid() && Inv(cfg, y, pos) && Enabled(cfg, y, ClientRead) && Progressing(cfg, y)
    requires cfg.filter == S.WholeContent || |Next(cfg, y, ClientRead).offers| <= 4
    ensures Progressing(cfg, Next(cfg, y, ClientRead))
  {
    hide Fits, ParseObjective, ParseOption, S.Same, S.Fresh, Own, Telling, Pending;
    ClientReadKeepsAwaited(cfg, y, pos);
  }

  lemma RepeatKeepsProgressing(cfg: Config, y: System, pos: Position, i: nat)
    requires cfg.Valid() && Inv(cfg, y, pos) && Enabled(cfg, y, Repeat(i)) && Progressing(cfg, y)
    ensures Progressing(cfg, Next(cfg, y, Repeat(i)))
  {
    hide Fits, S.Same, S.Fresh, Own, Telling, Pending, OpeningIsNew;
    RepeatKeepsPending(cfg, y, pos, i);
  }

  lemma {:induction false} ExecKeepsProgressing(cfg: Config, y: System, pos: Position, acts: seq<Action>)
    returns (pos': Position)
    requires cfg.Valid() && Inv(cfg, y, pos) && Progressing(cfg, y) && NoIdleEnd(acts)
    requires cfg.filter == S.WholeContent || Goal(cfg).offers <= 4
    ensures Inv(cfg, Exec(cfg, y, acts), pos') && Progressing(cfg, Exec(cfg, y, acts))
    decreases |acts|
  {
    hide Inv, Step, Progressing, Goal;
    pos' := pos;
    if acts != [] {
      assert acts[0] in acts && forall a | a in acts[1..] :: a in acts;
      var y' := Step(cfg, y, acts[0]);
      var mid := StepKeepsInv(cfg, y, pos, acts[0]);
      OffersWithinGame(cfg, y', mid);
      StepKeepsProgressing(cfg, y, pos, acts[0]);
      pos' := ExecKeepsProgressing(cfg, y', mid, acts[1..]);
    }
  }

  lemma OffersWithinGame(cfg: Config, y: System, pos: Position)
    requires cfg.Valid() && Inv(cfg, y, pos)
    ensures |y.offers| <= Goal(cfg).offers
  {
    hide ParseObjective, ParseOption, S.Same, S.Reply, S.Fresh, Play, IsOffer, Tells, Own, Telling, ServerFits;
  }

  /** Both ends have come to the game's outcome, and one NEGO_END has been written. */
  predicate Concluded(cfg: Config, y: System)
    requires cfg.Valid()
  {
    var goal := Play(cfg.game, ServerSide, cfg.v0, cfg.n);
    && y.client.phase == C.Returned(SUCCESS) && y.client.verdict == Announced(goal.verdict)
    && y.session.Some? && y.session.value.pc == S.Exited && y.session.value.verdict == Announced(goal.verdict)
    && y.ends == [goal.decider]
    && |y.offers| == goal.offers && y.offers[goal.offers - 1].option.value == goal.last
  }

  lemma CompleteIsConcluded(cfg: Config, y: System, pos: Position)
    requires cfg.Valid() && Inv(cfg, y, pos) && Progressing(cfg, y) && Complete(y)
    ensures Concluded(cfg, y)
  {
    hide ParseObjective, ParseOption, S.Same, S.Reply, S.Fresh, Play, IsOffer, Tells, OpeningIsNew;
    NothingPending(cfg, y);
  }

  lemma NothingPending(cfg: Config, y: System)
    requires y.toServer == [] && (y.session.Some? ==> y.session.value.queue == [] || y.session.value.pc == S.Exited)
    ensures y.session == None || y.session.value.pc != S.Exited ==> Pending(cfg, ViewOf(cfg.sid, y)) == []
  {
  }

  /** An offer that was lost stays lost. */
  lemma {:induction false} LostStaysLost(cfg: Config, y: System, acts: seq<Action>)
    requires cfg.Valid() && Inv(cfg, y, Lost)
    ensures Inv(cfg, Exec(cfg, y, acts), Lost)
    decreases |acts|
  {
    hide Inv, Step;
    if acts != [] {
      var mid := StepKeepsInv(cfg, y, Lost, acts[0]);
      LostStaysLost(cfg, Step(cfg, y, acts[0]), acts[1..]);
    }
  }

  /** Until it starts, the client is as it was; and a swallowed opening is lost. */
  lemma {:induction false} SwallowedOpening(cfg: Config, y: System, acts: seq<Action>) returns (pos': Position)
    requires cfg.Valid() && Inv(cfg, y, Unopened) && !OpeningIsNew(cfg, y.client)
    ensures Inv(cfg, Exec(cfg, y, acts), pos') && (pos' == Unopened || pos' == Lost)
    decreases |acts|
  {
    hide Inv, Next, S.Same;
    pos' := Unopened;
    if acts != [] {
      var a := acts[0];
      var y' := Step(cfg, y, a);
      UnopenedClient(cfg, y);
      if a == Start {
        var mid := StartOnly(cfg, y, Unopened);
        LostStaysLost(cfg, y', acts[1..]);
        pos' := Lost;
      } else {
        OtherActionsKeepUnopened(cfg, y, a);
        pos' := SwallowedOpening(cfg, y', acts[1..]);
      }
    }
  }

  lemma UnopenedClient(cfg: Config, y: System)
    requires cfg.Valid() && Inv(cfg, y, Unopened)
    ensures y.client.phase == C.Idle && y.session == None
  {
  }

  lemma OtherActionsKeepUnopened(cfg: Config, y: System, a: Action)
    requires cfg.Valid() && Inv(cfg, y, Unopened) && a != Start
    ensures Inv(cfg, Step(cfg, y, a), Unopened) && Step(cfg, y, a).client == y.client
  {
    hide Fits;
    UnopenedClient(cfg, y);
    if Enabled(cfg, y, a) {
      match a
      case Deliver => DeliverStep(cfg, y, Unopened);
      case Repeat(i) => RepeatStep(cfg, y, Unopened, i);
      case ForeignToServer(p) => ForeignSteps(cfg, y, Unopened, p);
      case ForeignToClient(p) => ForeignSteps(cfg, y, Unopened, p);
      case _ =>
    }
  }

  /** Refinement.  Take any execution without an idle end, with whatever WAITs,
      repetitions, foreign PDUs and thread interleavings, that has nothing left to do.
      Both ends have come to the outcome of the game, exactly when the filter did not
      swallow a message: the opening one, because uninitialised memory looked like it,
      or, if the filter uses strcmp, the fifth offer, which there is exactly in a game
      that nobody decides before. */
  lemma CompleteRunsPlayTheGame(cfg: Config, y0: System, acts: seq<Action>)
    requires cfg.Valid() && Initial(cfg, y0) && NoIdleEnd(acts) && Complete(Exec(cfg, y0, acts))
    ensures Concluded(cfg, Exec(cfg, y0, acts))
            <==> && OpeningIsNew(cfg, y0.client)
                 && (cfg.filter == S.WholeContent || !LongGame(cfg))
  {
    hide Inv, Exec, OpeningIsNew, Complete, Concluded, Progressing, LongGame, Play;
    var y := Exec(cfg, y0, acts);
    LongGameExactly(cfg);
    InitialFits(cfg, y0);
    if !OpeningIsNew(cfg, y0.client) {
      var pos := SwallowedOpening(cfg, y0, acts);
      UnendedIsOpen(cfg, y, pos);
    } else if cfg.filter == S.WholeContent || !LongGame(cfg) {
      InitialProgresses(cfg, y0);
      var pos := ExecKeepsProgressing(cfg, y0, Unopened, acts);
      CompleteIsConcluded(cfg, y, pos);
    } else {
      StrcmpSilencesLongGames(cfg, y0, acts);
      SilenceIsOpen(cfg, y);
    }
  }

  lemma InitialProgresses(cfg: Config, y: System)
    requires Initial(cfg, y) && OpeningIsNew(cfg, y.client)
    ensures Progressing(cfg, y)
  {
  }

  lemma UnendedIsOpen(cfg: Config, y: System, pos: Position)
    requires cfg.Valid() && Inv(cfg, y, pos) && (pos == Unopened || pos == Lost)
    ensures !Concluded(cfg, y)
  {
    hide ParseObjective, ParseOption, S.Same, S.Reply, S.Fresh, Play;
  }

  lemma SilenceIsOpen(cfg: Config, y: System)
    requires cfg.Valid() && y.ends == []
    ensures !Concluded(cfg, y)
  {
  }

  /** `negotiate` opens with 5, so with strcmp its declines never come about: whatever
      is executed, neither side reports one. */
  lemma DefaultCountNeverDeclines(cfg: Config, y0: System, acts: seq<Action>)
    requires cfg.Valid() && Initial(cfg, y0)
    requires cfg.n == 5 && cfg.filter == S.CStringContent
    ensures var y := Exec(cfg, y0, acts);
            && y.client.verdict != Some(Declined)
            && (y.session.Some? ==> y.session.value.verdict != Some(Declined))
  {
    hide Exec;
    VerdictsAreTheGames(cfg, y0, acts);
    LongGameExactly(cfg);
    if LongGame(cfg) { StrcmpSilencesLongGames(cfg, y0, acts); }
  }

  /** Synchronization: one REQUEST, one NEGO_END, and the client configures exactly
      what the server's ASA makes of the value sent, over any number of WAITs and with
      any opening count, 1 included. */
  lemma SynchronizationConfiguresServerResult(cfg: Config, y0: System, acts: seq<Action>)
    requires cfg.Valid() && Initial(cfg, y0) && NoIdleEnd(acts) && Complete(Exec(cfg, y0, acts))
    requires cfg.game.kind == Synchronization && OpeningIsNew(cfg, y0.client)
    ensures var y := Exec(cfg, y0, acts);
            && |y.offers| == 1 && y.ends == [ServerSide]
            && y.client.phase == C.Returned(SUCCESS)
            && y.client.configured == [cfg.game.server.result(cfg.v0)]
  {
    hide Exec, OpeningIsNew, Complete, Concluded, Initial;
    assert Stops(cfg.game, ServerSide, cfg.v0, cfg.n, 0);
    CompleteRunsPlayTheGame(cfg, y0, acts);
    assert Concluded(cfg, Exec(cfg, y0, acts));
    ConcludedSync(cfg, Exec(cfg, y0, acts));
    ConfiguredOfSync(cfg, y0, acts);
  }

  lemma ConcludedSync(cfg: Config, y: System)
    requires cfg.Valid() && Concluded(cfg, y) && cfg.game.kind == Synchronization
    ensures |y.offers| == 1 && y.ends == [ServerSide] && y.client.phase == C.Returned(SUCCESS)
  {
  }

  lemma ConfiguredOfSync(cfg: Config, y0: System, acts: seq<Action>)
    requires cfg.Valid() && Initial(cfg, y0) && cfg.game.kind == Synchronization
    requires Concluded(cfg, Exec(cfg, y0, acts))
    ensures Exec(cfg, y0, acts).client.configured == [cfg.game.server.result(cfg.v0)]
  {
    hide ParseObjective, ParseOption, S.Same, S.Reply, S.Fresh, IsOffer, Tells, Own, Telling, Exec;
    var pos := Reached(cfg, y0, acts);
  }
}
