/** Every action keeps the invariant of module PairingInv. */
module PairingSteps {
  import opened Wire
  import opened Bargain
  import opened Pairing
  import opened PairingInv
  import C = ClientTcp
  import S = Session

  lemma StartView(cfg: Config, y: System) returns (w: View, c: Content)
    requires cfg.Valid() && y.client.phase == C.Idle && y.client.state == OFF
    requires y.session == None && Own(cfg.sid, y.toServer) == []
    ensures w == ViewOf(cfg.sid, Next(cfg, y, Start)) && c == Opening(cfg, y.client)
    ensures Next(cfg, y, Start).toClient == y.toClient
    ensures IsOffer(cfg, c, cfg.v0, cfg.n) && c.mtype == REQUEST_MSG
    ensures w.own == [c] && w.told == Telling(cfg.sid, y.toClient) && w.session == None && w.ends == y.ends
    ensures w.offers == y.offers + [Offer(ClientSide, ParseObjective(c.data))]
    ensures w.client.phase == C.Reading && w.client.last == y.client.last
    ensures w.client.verdict == y.client.verdict && w.client.configured == y.client.configured
  {
    hide ParseObjective, ParseOption, ObjectiveData, Telling;
    var p := C.Begin(cfg.Client(), y.client, cfg.v0, cfg.n, cfg.flag).1[0];
    c := S.Content(p.mtype, p.data);
    OwnOfAppend(cfg.sid, y.toServer, [p]);
    assert Own(cfg.sid, y.toServer + [p]) == [c];
    w := ViewOf(cfg.sid, Next(cfg, y, Start));
  }

  lemma StartStep(cfg: Config, y: System) returns (pos': Position)
    requires cfg.Valid() && Inv(cfg, y, Unopened)
    ensures Inv(cfg, Next(cfg, y, Start), pos')
    ensures S.Same(cfg.filter, Opening(cfg, y.client), cfg.uninit) ==> pos' == Lost
  {
    hide ParseObjective, ParseOption, ObjectiveData, Play, S.Same, S.Reply, Own, Telling, C.Begin, Next;
    assert Enabled(cfg, y, Start);
    var w, c := StartView(cfg, y);
    assert w.offers == [Offer(ClientSide, Objective(cfg.game.kind, cfg.v0, cfg.n, cfg.flag))];
    pos' := if S.Same(cfg.filter, c, cfg.uninit) then Lost else Table(ServerSide, cfg.v0, cfg.n, c);
  }

  lemma ForeignSteps(cfg: Config, y: System, pos: Position, p: Pdu)
    requires cfg.Valid() && Inv(cfg, y, pos) && p.sid != cfg.sid
    ensures Inv(cfg, y.(toServer := y.toServer + [p]), pos)
    ensures Inv(cfg, y.(toClient := y.toClient + [p]), pos)
  {
    hide Fits;
    OwnOfAppend(cfg.sid, y.toServer, [p]);
    TellingOfAppend(cfg.sid, y.toClient, [p]);
    assert Own(cfg.sid, y.toServer + [p]) == Own(cfg.sid, y.toServer);
    assert Telling(cfg.sid, y.toClient + [p]) == Telling(cfg.sid, y.toClient);
  }

  /** A live session's position depends on the channel only through what is pending. */
  lemma FitsOfPending(cfg: Config, w: View, w': View, pos: Position)
    requires cfg.Valid() && Fits(cfg, w, pos)
    requires w' == w.(own := w'.own, session := w'.session) && w.session.Some? && w'.session.Some?
    requires w'.session.value == w.session.value.(queue := w'.session.value.queue)
    requires w.session.value.pc == S.Exited || Pending(cfg, w') == Pending(cfg, w)
    requires forall c | c in w'.own :: c.mtype != REQUEST_MSG
    ensures Fits(cfg, w', pos)
  {
    hide ParseObjective, ParseOption, Play, S.Same, S.Reply, Pending, IsOffer, Tells;
  }

  lemma RepeatKeepsPending(cfg: Config, y: System, pos: Position, i: nat)
    requires cfg.Valid() && Inv(cfg, y, pos) && Enabled(cfg, y, Repeat(i))
    ensures var w, w' := ViewOf(cfg.sid, y), ViewOf(cfg.sid, Next(cfg, y, Repeat(i)));
            && Pending(cfg, w') == Pending(cfg, w)
            && (w'.own == w.own || (w.session.Some? && forall c | c in w'.own :: c.mtype != REQUEST_MSG))
  {
    hide Fits, S.Fresh, Own, Telling;
    OwnShape(cfg, ViewOf(cfg.sid, y), pos);
    var j := OwnOfRepeat(cfg.sid, y.toServer, i);
    var y' := Next(cfg, y, Repeat(i));
    var xs, ys := Own(cfg.sid, y.toServer), Own(cfg.sid, y'.toServer);
    if ys != xs {
      assert y.session.Some?;
      var s := y.session.value;
      var k := |s.queue| + j;
      S.FreshOfRepeat(cfg.filter, s.last, s.queue + xs, k);
      assert (s.queue + xs)[..k + 1] + (s.queue + xs)[k..] == s.queue + ys;
    }
  }

  lemma RepeatStep(cfg: Config, y: System, pos: Position, i: nat)
    requires cfg.Valid() && Inv(cfg, y, pos) && Enabled(cfg, y, Repeat(i))
    ensures Inv(cfg, Next(cfg, y, Repeat(i)), pos)
  {
    hide Fits, Pending, Own, Telling;
    RepeatKeepsPending(cfg, y, pos, i);
    var w, w' := ViewOf(cfg.sid, y), ViewOf(cfg.sid, Next(cfg, y, Repeat(i)));
    if w'.own != w.own { FitsOfPending(cfg, w, w', pos); }
  }

  lemma OwnShape(cfg: Config, w: View, pos: Position)
    requires cfg.Valid() && Fits(cfg, w, pos)
    ensures w.session == None ==> |w.own| <= 1 && forall c | c in w.own :: c.mtype == REQUEST_MSG
    ensures w.session.Some? ==> forall c | c in w.own :: c.mtype != REQUEST_MSG
  {
    hide ParseObjective, ParseOption, Play, S.Same, S.Fresh, IsOffer, Tells, OnCourse, ClientFits, CountsFall;
  }

  lemma DeliverStep(cfg: Config, y: System, pos: Position)
    requires cfg.Valid() && Inv(cfg, y, pos) && y.toServer != []
    ensures Inv(cfg, Next(cfg, y, Deliver), pos)
  {
    hide Fits, S.Fresh, Telling;
    var y' := Next(cfg, y, Deliver);
    OwnShape(cfg, ViewOf(cfg.sid, y), pos);
    var p := y.toServer[0];
    var c := S.Content(p.mtype, p.data);
    if p.sid == cfg.sid {
      assert Own(cfg.sid, y.toServer) == [c] + Own(cfg.sid, y'.toServer);
      if y.session.Some? {
        var s := y.session.value;
        assert c in Own(cfg.sid, y.toServer);
        if s.pc != S.Exited {
          assert (s.queue + [c]) + Own(cfg.sid, y'.toServer) == s.queue + Own(cfg.sid, y.toServer);
        }
        FitsOfPending(cfg, ViewOf(cfg.sid, y), ViewOf(cfg.sid, y'), pos);
      } else {
        OpeningStep(cfg, y, pos, c);
        assert Own(cfg.sid, y'.toServer) == [];
      }
    } else {
      assert Own(cfg.sid, y.toServer) == Own(cfg.sid, y'.toServer);
    }
  }

  lemma OpeningStep(cfg: Config, y: System, pos: Position, c: Content)
    requires cfg.Valid() && Fits(cfg, ViewOf(cfg.sid, y), pos)
    requires y.session == None && Own(cfg.sid, y.toServer) == [c]
    ensures c.mtype == REQUEST_MSG
    ensures Fits(cfg, ViewOf(cfg.sid, y).(session := Some(S.Opened(c, cfg.uninit)), own := []), pos)
  {
    hide ParseObjective, ParseOption, Play, S.Same, S.Reply, IsOffer, Tells, Telling, Own;
    assert [c] + [] == [c];
    assert S.Fresh(cfg.filter, cfg.uninit, [c]) == if S.Same(cfg.filter, c, cfg.uninit) then [] else [c];
  }

  // ---------- the helper threads ----------

  /** A helper thread touches its counter, and the state only to end the session. */
  lemma FitsOfHelper(cfg: Config, w: View, s': S.Session, pos: Position)
    requires cfg.Valid() && Fits(cfg, w, pos) && w.session.Some? && S.SafeState(s')
    requires var s := w.session.value;
             && s' == s.(state := s'.state, waiters := s'.waiters, armed := s'.armed, enders := s'.enders)
             && (s'.state == s.state || s'.state == S.SESSION_END)
    ensures Fits(cfg, w.(session := Some(s')), pos)
  {
    hide ParseObjective, ParseOption, Play, S.Same, S.Reply, S.Fresh, IsOffer, Tells;
  }

  lemma HelperStep(cfg: Config, y: System, pos: Position, b: S.Action)
    requires cfg.Valid() && Inv(cfg, y, pos) && Enabled(cfg, y, Server(b)) && b != S.Run
    ensures Inv(cfg, Next(cfg, y, Server(b)), pos)
  {
    hide ParseObjective, ParseOption, WaitData, Own, OnCourse, ClientFits, ServerFits, CountsFall;
    var y' := Next(cfg, y, Server(b));
    var s' := S.Next(cfg.Server(), y.session.value, b).0;
    S.NextKeepsSafeState(cfg.Server(), y.session.value, b);
    FitsOfHelper(cfg, ViewOf(cfg.sid, y), s', pos);
    var out := S.Next(cfg.Server(), y.session.value, b).1;
    TellingOfAppend(cfg.sid, y.toClient, Framed(cfg.sid, out));
    assert Telling(cfg.sid, y'.toClient) == Telling(cfg.sid, y.toClient);
  }

  // ---------- the run loop ----------

  /** What a step of the run loop does to the view. */
  function RunView(cfg: Config, w: View): View
    requires w.session.Some?
  {
    var (s, out) := S.RunStep(cfg.Server(), w.session.value);
    var w1 := w.(session := Some(s), told := w.told + out);
    if out == [] then w1
    else if out[0].mtype == NEGO_MSG then
      w1.(offers := w.offers + [Offer(ServerSide, ParseObjective(out[0].data))])
    else w1.(ends := w.ends + [ServerSide])
  }

  /** Popping leaves what was pending, or hands its first content to set_state. */
  lemma PopPending(cfg: Config, w: View)
    requires w.session.Some? && w.session.value.pc == S.Pop
    ensures var s := w.session.value;
            var w' := RunView(cfg, w);
            var s' := w'.session.value;
            || (s'.pc == S.Head && Pending(cfg, w') == Pending(cfg, w) && s'.last == s.last)
            || (&& Pending(cfg, w) != [] && s'.pc == S.SetRead(Pending(cfg, w)[0])
                && s'.last == Pending(cfg, w)[0] && Pending(cfg, w') == Pending(cfg, w)[1..])
  {
    hide ParseObjective, ParseOption, S.Same, S.Reply;
    var s := w.session.value;
    if s.queue != [] {
      assert (s.queue + w.own)[0] == s.queue[0] && (s.queue + w.own)[1..] == s.queue[1..] + w.own;
    }
  }

  lemma RestingRun(cfg: Config, w: View)
    requires w.session.Some? && Resting(cfg, w.session.value)
    ensures var s := w.session.value;
            var w' := RunView(cfg, w);
            var s' := w'.session.value;
            && w' == w.(session := w'.session) && (S.SafeState(s) ==> S.SafeState(s'))
            && s'.verdict == s.verdict
            && (|| s'.pc == S.Exited
                || (Resting(cfg, s') && Pending(cfg, w') == Pending(cfg, w) && s'.last == s.last)
                || (&& Pending(cfg, w) != [] && s'.pc == S.SetRead(Pending(cfg, w)[0])
                    && s'.last == Pending(cfg, w)[0] && Pending(cfg, w') == Pending(cfg, w)[1..]))
  {
    hide ParseObjective, ParseOption, S.Same, S.Reply, S.Fresh;
    assert w.told + [] == w.told;
    if S.SafeState(w.session.value) { S.NextKeepsSafeState(cfg.Server(), w.session.value, S.Run); }
    if w.session.value.pc == S.Pop { PopPending(cfg, w); }
  }

  lemma RestAtTable(cfg: Config, w: View, v: Value, m: int, c: Content) returns (pos': Position)
    requires cfg.Valid() && w.session.Some? && Fits(cfg, w, Table(ServerSide, v, m, c))
    requires Resting(cfg, w.session.value)
    ensures Fits(cfg, RunView(cfg, w), pos')
    ensures pos' == if RunView(cfg, w).session.value.pc == S.Exited then Lost else Table(ServerSide, v, m, c)
  {
    hide ParseObjective, ParseOption, S.Same, S.Reply, S.RunStep, Pending, Play, IsOffer, Answered;
    RestingRun(cfg, w);
    pos' := if RunView(cfg, w).session.value.pc == S.Exited then Lost else Table(ServerSide, v, m, c);
  }

  lemma OfferTellsNothing(cfg: Config, c: Content, v: Value, m: int)
    requires cfg.Valid() && IsOffer(cfg, c, v, m)
    ensures S.CarriesObjective(c.mtype) && S.VerdictIn(c.data) == None
  {
    hide ParseObjective, ParseOption;
  }

  lemma RunWhileAtWork(cfg: Config, s: S.Session, c: Content)
    requires S.SafeState(s) && AtWork(cfg, s, c) && !s.pc.Work? && !s.pc.SendWrite?
    requires S.CarriesObjective(c.mtype) && S.VerdictIn(c.data) == None
    ensures var (s', out) := S.RunStep(cfg.Server(), s);
            && out == [] && s'.verdict == s.verdict && s'.queue == s.queue && s'.last == s.last
            && (s'.pc == S.Head || AtWork(cfg, s', c)) && S.SafeState(s')
            && !Resting(cfg, s)
  {
    hide ParseObjective, ParseOption, S.Same, S.Reply, S.VerdictIn;
  }

  /** From the pop to the ASA, and from the ASA to the write. */
  lemma ProcessTable(cfg: Config, w: View, v: Value, m: int, c: Content) returns (pos': Position)
    requires cfg.Valid() && w.session.Some? && Fits(cfg, w, Table(ServerSide, v, m, c))
    requires AtWork(cfg, w.session.value, c) && !w.session.value.pc.Work? && !w.session.value.pc.SendWrite?
    ensures Fits(cfg, RunView(cfg, w), pos')
    ensures pos' == if RunView(cfg, w).session.value.pc == S.Head then Lost else Table(ServerSide, v, m, c)
  {
    hide ParseObjective, ParseOption, S.Same, S.Reply, S.Fresh, S.VerdictIn, S.RunStep, AtWork, Play, IsOffer, Tells;
    OfferTellsNothing(cfg, c, v, m);
    RunWhileAtWork(cfg, w.session.value, c);
    assert w.told + [] == w.told;
    assert Pending(cfg, RunView(cfg, w)) == Pending(cfg, w);
    pos' := if RunView(cfg, w).session.value.pc == S.Head then Lost else Table(ServerSide, v, m, c);
  }

  lemma RunAtAsa(cfg: Config, s: S.Session, c: Content, v: Value, m: int)
    requires cfg.Valid() && IsOffer(cfg, c, v, m)
    requires S.SafeState(s) && s.pc == S.Work(c) && s.verdict == None
    ensures S.RunStep(cfg.Server(), s)
            == (s.(pc := S.SendRead(c), state := S.IDLE,
                   verdict := match ServerMove(cfg.game, v, m) case Counter(_) => None case Decide(d) => Announced(d)),
                [])
    ensures !Resting(cfg, s)
  {
    hide ParseObjective, ParseOption, S.Same, S.Reply, S.VerdictIn, IsOffer;
    ReplyIsServerMove(cfg, c, v, m);
  }

  lemma PlayDecided(g: Game, mover: Side, v: Value, m: int, d: Verdict)
    requires m >= 1 && MoveOf(g, mover, v, m) == Decide(d)
    ensures Play(g, mover, v, m) == Outcome(d, v, mover, 1)
  {
  }

  lemma PlayCountered(g: Game, mover: Side, v: Value, m: int, u: Value)
    requires m >= 1 && MoveOf(g, mover, v, m) == Counter(u)
    ensures m > 1
    ensures var o := Play(g, Other(mover), u, m - 1);
            Play(g, mover, v, m) == o.(offers := o.offers + 1)
  {
  }

  /** The ASA's answer is the server's move: either still a counter-offer to come, or
      the decision. */
  lemma DecideAtTable(cfg: Config, w: View, v: Value, m: int, c: Content) returns (pos': Position)
    requires cfg.Valid() && w.session.Some? && Fits(cfg, w, Table(ServerSide, v, m, c))
    requires w.session.value.pc == S.Work(c)
    ensures Fits(cfg, RunView(cfg, w), pos')
    ensures pos' == match ServerMove(cfg.game, v, m)
                    case Counter(_) => Table(ServerSide, v, m, c)
                    case Decide(d) => Decided(ServerSide, d, v, S.Reply(cfg.game.server, c))
  {
    hide ParseObjective, ParseOption, S.Same, S.Reply, S.Fresh, S.VerdictIn, S.RunStep, IsOffer, ServerMove, Play;
    ReplyIsServerMove(cfg, c, v, m);
    RunAtAsa(cfg, w.session.value, c, v, m);
    assert w.told + [] == w.told;
    assert Pending(cfg, RunView(cfg, w)) == Pending(cfg, w);
    match ServerMove(cfg.game, v, m)
    case Counter(_) => pos' := Table(ServerSide, v, m, c);
    case Decide(d) =>
      PlayDecided(cfg.game, ServerSide, v, m, d);
      pos' := Decided(ServerSide, d, v, S.Reply(cfg.game.server, c));
  }

  lemma RunAtWrite(cfg: Config, s: S.Session, c: Content)
    requires S.SafeState(s) && s.pc == S.SendWrite(c)
    ensures S.RunStep(cfg.Server(), s) == (s.(pc := S.SendSet(c)), [S.Reply(cfg.game.server, c)])
    ensures S.SafeState(s.(pc := S.SendSet(c))) && !Resting(cfg, s)
  {
    hide ParseObjective, ParseOption, S.Same, S.Reply, S.VerdictIn;
  }

  /** One more offer, in turn and one below the last, keeps the counts falling. */
  lemma OfferCounted(cfg: Config, w: View, w': View, from: Side, c: Content, v: Value, m: int)
    requires CountsFall(cfg, w) && w'.offers == w.offers + [Offer(from, ParseObjective(c.data))]
    requires IsOffer(cfg, c, v, m) && m == cfg.n - |w.offers|
    requires from == if |w.offers| % 2 == 0 then ClientSide else ServerSide
    ensures CountsFall(cfg, w')
  {
    hide ParseObjective, ParseOption;
  }

  /** The counter-offer goes out. */
  lemma CounterAtTable(cfg: Config, w: View, v: Value, m: int, c: Content) returns (pos': Position)
    requires cfg.Valid() && w.session.Some? && Fits(cfg, w, Table(ServerSide, v, m, c))
    requires w.session.value.pc == S.SendWrite(c) && S.Reply(cfg.game.server, c).mtype == NEGO_MSG
    ensures Fits(cfg, RunView(cfg, w), pos')
    ensures ServerMove(cfg.game, v, m).Counter?
    ensures pos' == Table(ClientSide, ServerMove(cfg.game, v, m).offer, m - 1, S.Reply(cfg.game.server, c))
  {
    hide ParseObjective, ParseOption, S.Same, S.Reply, S.Fresh, S.VerdictIn, S.RunStep, ServerMove, Play, CountsFall;
    ReplyIsServerMove(cfg, c, v, m);
    RunAtWrite(cfg, w.session.value, c);
    assert Pending(cfg, RunView(cfg, w)) == Pending(cfg, w);
    match ServerMove(cfg.game, v, m)
    case Counter(u) =>
      OfferCounted(cfg, w, RunView(cfg, w), ServerSide, S.Reply(cfg.game.server, c), u, m - 1);
      PlayCountered(cfg.game, ServerSide, v, m, u);
      pos' := Table(ClientSide, u, m - 1, S.Reply(cfg.game.server, c));
    case Decide(_) => assert false;
  }

  lemma RestElsewhere(cfg: Config, w: View, pos: Position)
    requires cfg.Valid() && w.session.Some? && Fits(cfg, w, pos) && w.session.value.pc != S.Exited
    requires pos == Lost || (pos.Table? && pos.to == ClientSide)
    ensures Fits(cfg, RunView(cfg, w), pos)
  {
    hide ParseObjective, ParseOption, S.Same, S.Reply, S.RunStep, Pending, Play, IsOffer, Answered;
    RestingRun(cfg, w);
  }

  lemma RunWhileEnding(cfg: Config, s: S.Session, c: Content)
    requires S.SafeState(s) && s.pc != S.Exited && c.mtype == NEGO_END_MSG
    ensures var (s', out) := S.RunStep(cfg.Server(), s);
            && S.SafeState(s')
            && ((s.pc.SendRead? || s.pc.SendWrite?) && S.Reply(cfg.game.server, s.pc.c) == c ==>
                  && s'.verdict == s.verdict
                  && if out == [] then s'.pc == S.SendWrite(s.pc.c) || s'.pc.Final?
                     else out == [c] && s'.pc == S.SendSet(s.pc.c))
            && (S.Closing(cfg.Server(), s) ==> s'.verdict == s.verdict && out == [] && S.Closing(cfg.Server(), s'))
            && (s.pc.Final? || AtEnd(s) ==> AtEnd(s'))
  {
    hide ParseObjective, ParseOption, S.Same, S.Reply, S.VerdictIn;
    S.NextKeepsSafeState(cfg.Server(), s, S.Run);
  }

  /** The server has decided: it writes its NEGO_END, unless the session has been ended
      under it, and leaves. */
  lemma RunDecidedByServer(cfg: Config, w: View, verdict: Verdict, v: Value, c: Content)
    requires cfg.Valid() && w.session.Some? && Fits(cfg, w, Decided(ServerSide, verdict, v, c))
    requires w.session.value.pc != S.Exited
    ensures Fits(cfg, RunView(cfg, w), Decided(ServerSide, verdict, v, c))
  {
    hide ParseObjective, ParseOption, S.Same, S.Reply, S.VerdictIn, S.RunStep, Pending, Play, IsOffer, Tells;
    hide Resting, AtWork;
    EndIsEnd(c, verdict);
    RunWhileEnding(cfg, w.session.value, c);
    assert w.told + [] == w.told;
  }

  lemma EndTells(c: Content, verdict: Verdict)
    requires Tells(c, verdict) && !verdict.Synchronized?
    ensures S.VerdictIn(c.data) == Some(verdict)
  {
    hide ParseObjective, ParseOption;
  }

  /** The run loop with the client's NEGO_END in its hands, or past it. */
  lemma RunWithEnd(cfg: Config, s: S.Session, c: Content, verdict: Verdict)
    requires S.SafeState(s) && s.pc != S.Exited && c.mtype == NEGO_END_MSG && S.VerdictIn(c.data) == Some(verdict)
    requires AtEnd(s) || s.pc == S.SetRead(c) || s.pc == S.SetWrite(c, S.SESSION_END) || s.pc == S.Spawn(c)
             || s.pc == S.Live(c)
    ensures var (s', out) := S.RunStep(cfg.Server(), s);
            && out == [] && S.SafeState(s') && s'.queue == s.queue && s'.last == s.last
            && (|| (AtEnd(s') && (s'.verdict == s.verdict || s'.verdict == Some(verdict)))
                || (!AtEnd(s) && s'.verdict == s.verdict
                    && (s'.pc == S.SetWrite(c, S.SESSION_END) || s'.pc == S.Spawn(c) || s'.pc == S.Live(c))))
  {
    hide ParseObjective, ParseOption, S.Same, S.Reply, S.VerdictIn;
    S.NextKeepsSafeState(cfg.Server(), s, S.Run);
  }

  /** The client has decided: the server takes note of its NEGO_END and leaves. */
  lemma RunDecidedByClient(cfg: Config, w: View, verdict: Verdict, v: Value, c: Content)
    requires cfg.Valid() && w.session.Some? && Fits(cfg, w, Decided(ClientSide, verdict, v, c))
    requires w.session.value.pc != S.Exited
    ensures Fits(cfg, RunView(cfg, w), Decided(ClientSide, verdict, v, c))
  {
    hide ParseObjective, ParseOption, S.Same, S.Reply, S.VerdictIn, S.RunStep, S.Fresh, Play, IsOffer;
    var s := w.session.value;
    assert w.told + [] == w.told;
    assert !verdict.Synchronized?;
    EndTells(c, verdict);
    if Resting(cfg, s) && !AtEnd(s) {
      RestingRun(cfg, w);
    } else {
      RunWithEnd(cfg, s, c, verdict);
    }
  }

  // ---------- the client ----------

  lemma FitsOfSkip(cfg: Config, w: View, c: C.Client, pos: Position)
    requires cfg.Valid() && Fits(cfg, w, pos) && w.client.phase == C.Reading && C.SameBargain(c, w.client)
    ensures Fits(cfg, w.(client := c), pos)
  {
    hide ParseObjective, ParseOption, Play, S.Same, S.Reply, S.Fresh, IsOffer, Tells;
  }

  /** What a message of the client's adds to what is pending. */
  lemma PendingOfSend(cfg: Config, w: View, x: Content)
    requires w.session.Some? && Pending(cfg, w) == []
    ensures Pending(cfg, w.(own := w.own + [x]))
            == if S.Same(cfg.filter, x, w.session.value.last) then [] else [x]
  {
    var s := w.session.value;
    S.FreshOfAppend(cfg.filter, s.last, s.queue + w.own, x);
    assert s.queue + (w.own + [x]) == (s.queue + w.own) + [x];
  }

  lemma TypeIsAllStrcmpSees(a: Content, b: Content)
    requires a.mtype == b.mtype && a.data[0] == b.data[0] && a.data[1] == 0 && b.data[1] == 0
    ensures S.Same(S.CStringContent, a, b)
  {
    StrcmpComparesTypes(a, b);
  }

  /** The second byte of every option is zero, so for two messages strcmp compares
      their option types and nothing else. */
  lemma StrcmpComparesTypes(a: Content, b: Content)
    requires a.data[1] == 0 && b.data[1] == 0
    ensures S.Same(S.CStringContent, a, b) <==> a.mtype == b.mtype && a.data[0] == b.data[0]
  {
    CStringOfHeader(a.data);
    CStringOfHeader(b.data);
  }

  lemma CStringOfHeader(d: Buffer)
    requires d[1] == 0
    ensures CString(d) == if d[0] == 0 then [] else [d[0]]
  {
    if d[0] != 0 {
      assert d[1..][0] == 0;
      assert CString(d[1..]) == [];
    }
  }

  lemma OfferHeader(cfg: Config, c: Content, v: Value, m: int)
    requires IsOffer(cfg, c, v, m)
    ensures c.data[0] == TypeNum(cfg.game.kind) && c.data[1] == 0 && m >= 1
    ensures ParseObjective(c.data) == Objective(cfg.game.kind, v, m, cfg.flag)
  {
    hide ParseObjective, ParseOption;
  }

  /** The view once the client has written the counter-offer `sent`. */
  function Countering(w: View, c': C.Client, sent: Content): View {
    w.(client := c', told := [], own := w.own + [sent],
       offers := w.offers + [Offer(ClientSide, ParseObjective(sent.data))])
  }

  lemma CounterReaches(cfg: Config, w: View, v: Value, m: int, c: Content, u: Value, c': C.Client, sent: Content)
    requires cfg.Valid() && Fits(cfg, w, Table(ClientSide, v, m, c)) && ClientMove(cfg.game, v, m) == Counter(u)
    requires Undecided(c') && c'.last == sent.data && sent.mtype == NEGO_MSG && IsOffer(cfg, sent, u, m - 1)
    requires w.session.value.pc != S.Exited && !S.Same(cfg.filter, sent, w.session.value.last)
    ensures Fits(cfg, Countering(w, c', sent), Table(ServerSide, u, m - 1, sent))
  {
    hide ParseObjective, ParseOption, S.Same, S.Reply, S.Fresh, Resting, ClientMove, Play, IsOffer, CountsFall, Tells;
    PlayCountered(cfg.game, ClientSide, v, m, u);
    OfferHeader(cfg, sent, u, m - 1);
    OfferCounted(cfg, w, Countering(w, c', sent), ClientSide, sent, u, m - 1);
    PendingOfSend(cfg, w, sent);
    if |w.offers| != 2 { TypeIsAllStrcmpSees(sent, w.session.value.last); }
  }

  lemma CounterIsLost(cfg: Config, w: View, v: Value, m: int, c: Content, u: Value, c': C.Client, sent: Content)
    requires cfg.Valid() && Fits(cfg, w, Table(ClientSide, v, m, c)) && ClientMove(cfg.game, v, m) == Counter(u)
    requires Undecided(c') && sent.mtype == NEGO_MSG && IsOffer(cfg, sent, u, m - 1)
    requires w.session.value.pc == S.Exited || S.Same(cfg.filter, sent, w.session.value.last)
    ensures Fits(cfg, Countering(w, c', sent), Lost)
  {
    hide ParseObjective, ParseOption, S.Same, S.Reply, S.Fresh, Resting, ClientMove, Play, IsOffer, Answered;
    PlayCountered(cfg.game, ClientSide, v, m, u);
    OfferHeader(cfg, sent, u, m - 1);
    if w.session.value.pc != S.Exited { PendingOfSend(cfg, w, sent); }
  }

  /** The client counters: the offer reaches the server, unless the session is gone or
      the filter takes it for a copy. */
  lemma ClientCounters(cfg: Config, w: View, v: Value, m: int, c: Content, u: Value, c': C.Client, sent: Content)
    returns (pos': Position)
    requires cfg.Valid() && Fits(cfg, w, Table(ClientSide, v, m, c)) && ClientMove(cfg.game, v, m) == Counter(u)
    requires Undecided(c') && c'.last == sent.data && sent.mtype == NEGO_MSG && IsOffer(cfg, sent, u, m - 1)
    ensures Fits(cfg, Countering(w, c', sent), pos')
  {
    hide Fits, S.Same, ClientMove, IsOffer, Undecided, Countering;
    SessionExists(cfg, w, Table(ClientSide, v, m, c));
    var s := w.session.value;
    if s.pc == S.Exited || S.Same(cfg.filter, sent, s.last) {
      CounterIsLost(cfg, w, v, m, c, u, c', sent);
      pos' := Lost;
    } else {
      CounterReaches(cfg, w, v, m, c, u, c', sent);
      pos' := Table(ServerSide, u, m - 1, sent);
    }
  }

  lemma SessionExists(cfg: Config, w: View, pos: Position)
    requires cfg.Valid() && Fits(cfg, w, pos) && pos.Table? && pos.to == ClientSide
    ensures w.session.Some?
  {
  }

  /** The client decides. */
  lemma ClientDecides(cfg: Config, w: View, v: Value, m: int, c: Content, d: Verdict, c': C.Client, sent: Content)
    requires cfg.Valid() && Fits(cfg, w, Table(ClientSide, v, m, c)) && ClientMove(cfg.game, v, m) == Decide(d)
    requires c'.phase == C.Returned(SUCCESS) && c'.verdict == Some(d) && Tells(sent, d)
    requires c'.configured == if d == Accepted then [v] else []
    ensures Fits(cfg, w.(client := c', told := [], own := w.own + [sent], ends := [ClientSide]),
                 Decided(ClientSide, d, v, sent))
  {
    hide ParseObjective, ParseOption, S.Reply, S.Fresh, Play;
    PlayDecided(cfg.game, ClientSide, v, m, d);
    if w.session.value.pc != S.Exited { PendingOfSend(cfg, w, sent); }
  }

  /** The client reads the server's NEGO_END. */
  lemma ClientListens(cfg: Config, w: View, verdict: Verdict, v: Value, c: Content, c': C.Client)
    requires cfg.Valid() && Fits(cfg, w, Decided(ServerSide, verdict, v, c)) && w.told == [c]
    requires c'.phase == C.Returned(SUCCESS)
    requires match verdict
             case Accepted =>
               c'.verdict == Some(Accepted) && c'.configured == [ParseObjective(w.client.last).value]
             case Declined => c'.verdict == Some(Declined) && c'.configured == []
             case Synchronized(r) => c'.verdict == None && c'.configured == [r]
    ensures Fits(cfg, w.(client := c', told := []), Decided(ServerSide, verdict, v, c))
  {
    hide ParseObjective, ParseOption, S.Same, S.Reply, S.Fresh, Play, Tells;
  }

  lemma ToldHead(cfg: Config, w: View, pos: Position)
    requires cfg.Valid() && Fits(cfg, w, pos) && w.client.phase == C.Reading && w.told != []
    ensures w.told == [pos.c]
    ensures (pos.Table? && pos.to == ClientSide && cfg.game.kind == Negotiation && IsOffer(cfg, pos.c, pos.v, pos.m)
             && pos.c.mtype == NEGO_MSG)
            || (pos.Decided? && pos.decider == ServerSide && Tells(pos.c, pos.verdict)
                && (pos.verdict.Synchronized? <==> cfg.game.kind == Synchronization))
    ensures Undecided(w.client)
  {
    hide ParseObjective, ParseOption, S.Same, S.Reply, S.Fresh, IsOffer, Tells;
  }

  lemma SkipStep(cfg: Config, y: System, pos: Position)
    requires cfg.Valid() && Inv(cfg, y, pos) && Enabled(cfg, y, ClientRead)
    requires y.toClient[0].sid != cfg.sid || y.toClient[0].mtype == WAIT_MSG
    ensures Inv(cfg, Next(cfg, y, ClientRead), pos)
  {
    hide Fits, ParseObjective, ParseOption, C.Receive;
    var y' := Next(cfg, y, ClientRead);
    ClientSkips(cfg, y.client, y.toClient[0]);
    assert Telling(cfg.sid, y.toClient) == Telling(cfg.sid, y'.toClient);
    assert y.toServer + [] == y.toServer;
    FitsOfSkip(cfg, ViewOf(cfg.sid, y), y'.client, pos);
  }

  /** The message that the client is about to read is the one on the table or the
      server's decision. */
  lemma ToldStep(cfg: Config, y: System, pos: Position)
    requires cfg.Valid() && Inv(cfg, y, pos) && Enabled(cfg, y, ClientRead)
    requires y.toClient[0].sid == cfg.sid && y.toClient[0].mtype != WAIT_MSG
    ensures var p := y.toClient[0];
            && Telling(cfg.sid, y.toClient) == [S.Content(p.mtype, p.data)]
            && Telling(cfg.sid, y.toClient[1..]) == []
            && (pos.Table? || pos.Decided?) && pos.c == S.Content(p.mtype, p.data)
  {
    hide Fits, IsOffer, Tells, Undecided;
    var p := y.toClient[0];
    var c := S.Content(p.mtype, p.data);
    assert Telling(cfg.sid, y.toClient) == [c] + Telling(cfg.sid, y.toClient[1..]);
    ToldHead(cfg, ViewOf(cfg.sid, y), pos);
    assert pos.c == ([c] + Telling(cfg.sid, y.toClient[1..]))[0] == c;
  }

  lemma OfferStep(cfg: Config, y: System, pos: Position) returns (pos': Position)
    requires cfg.Valid() && Inv(cfg, y, pos) && Enabled(cfg, y, ClientRead) && pos.Table?
    requires y.toClient[0].sid == cfg.sid && y.toClient[0].mtype != WAIT_MSG
    ensures Inv(cfg, Next(cfg, y, ClientRead), pos')
  {
    hide Fits, IsOffer, Tells, ParseObjective, ParseOption, C.Receive, Undecided, Own, Telling, ClientMove;
    var w := ViewOf(cfg.sid, y);
    var p := y.toClient[0];
    ToldStep(cfg, y, pos);
    ToldHead(cfg, w, pos);
    ClientPlays(cfg, y.client, p, pos.v, pos.m);
    var (c', out) := C.Receive(cfg.Client(), y.client, p);
    var sent := S.Content(out[0].mtype, out[0].data);
    OwnOfAppend(cfg.sid, y.toServer, out);
    OwnOfOne(cfg.sid, out);
    var y' := Next(cfg, y, ClientRead);
    assert WaitsCarryTime(cfg.sid, y'.toClient);
    match ClientMove(cfg.game, pos.v, pos.m)
    case Counter(u) =>
      assert ViewOf(cfg.sid, y')
             == Countering(w, c', sent);
      pos' := ClientCounters(cfg, w, pos.v, pos.m, pos.c, u, c', sent);
    case Decide(d) =>
      NoEndsYet(cfg, w, pos);
      EndIsEnd(sent, d);
      assert ViewOf(cfg.sid, y') == w.(client := c', told := [], own := w.own + [sent], ends := [ClientSide]);
      ClientDecides(cfg, w, pos.v, pos.m, pos.c, d, c', sent);
      pos' := Decided(ClientSide, d, pos.v, sent);
  }

  lemma EndIsEnd(c: Content, d: Verdict)
    requires Tells(c, d)
    ensures c.mtype == NEGO_END_MSG
  {
    hide ParseObjective, ParseOption;
  }

  lemma VerdictStep(cfg: Config, y: System, pos: Position)
    requires cfg.Valid() && Inv(cfg, y, pos) && Enabled(cfg, y, ClientRead) && pos.Decided?
    requires y.toClient[0].sid == cfg.sid && y.toClient[0].mtype != WAIT_MSG
    ensures Inv(cfg, Next(cfg, y, ClientRead), pos)
  {
    hide Fits, IsOffer, Tells, ParseObjective, ParseOption, C.Receive, Undecided, Own, Telling;
    var w := ViewOf(cfg.sid, y);
    var p := y.toClient[0];
    ToldStep(cfg, y, pos);
    ToldHead(cfg, w, pos);
    ClientHears(cfg, y.client, p, pos.verdict);
    assert y.toServer + [] == y.toServer;
    ClientListens(cfg, w, pos.verdict, pos.v, pos.c, C.Receive(cfg.Client(), y.client, p).0);
  }

  lemma ClientReadStep(cfg: Config, y: System, pos: Position) returns (pos': Position)
    requires cfg.Valid() && Inv(cfg, y, pos) && Enabled(cfg, y, ClientRead)
    ensures Inv(cfg, Next(cfg, y, ClientRead), pos')
    ensures pos == Lost ==> pos' == Lost
  {
    hide Inv, Next;
    pos' := pos;
    if y.toClient[0].sid != cfg.sid || y.toClient[0].mtype == WAIT_MSG {
      SkipStep(cfg, y, pos);
    } else {
      ToldStep(cfg, y, pos);
      if pos.Table? {
        pos' := OfferStep(cfg, y, pos);
      } else {
        VerdictStep(cfg, y, pos);
      }
    }
  }

  lemma OwnOfOne(sid: uint32, out: seq<Pdu>)
    requires |out| == 1 && out[0].sid == sid
    ensures Own(sid, out) == [S.Content(out[0].mtype, out[0].data)]
  {
    assert out[1..] == [];
  }

  lemma NoEndsYet(cfg: Config, w: View, pos: Position)
    requires cfg.Valid() && Fits(cfg, w, pos) && pos.Table?
    ensures w.ends == []
  {
    hide ParseObjective, ParseOption, S.Same, S.Reply, S.Fresh, Play, IsOffer, Tells;
  }

  // ---------- all together ----------

  lemma RunMatchesView(cfg: Config, y: System)
    requires y.session.Some? && Enabled(cfg, y, Server(S.Run))
    ensures ViewOf(cfg.sid, Next(cfg, y, Server(S.Run))) == RunView(cfg, ViewOf(cfg.sid, y))
    ensures WaitsCarryTime(cfg.sid, y.toClient) ==>
              WaitsCarryTime(cfg.sid, Next(cfg, y, Server(S.Run)).toClient)
  {
    hide ParseObjective, ParseOption, S.RunStep, Own, Telling;
    var out := S.RunStep(cfg.Server(), y.session.value).1;
    RunWritesOnce(cfg, y.session.value);
    TellingOfAppend(cfg.sid, y.toClient, Framed(cfg.sid, out));
    TellingOfNone(cfg.sid);
    if out != [] {
      var p := Framed(cfg.sid, out)[0];
      TellingOfCons(cfg.sid, p, []);
      assert [p] + [] == Framed(cfg.sid, out);
      assert Telling(cfg.sid, [p]) == [out[0]] + [];
      assert out == [out[0]] + [];
    }
  }

  lemma RunWritesOnce(cfg: Config, s: S.Session)
    ensures var out := S.RunStep(cfg.Server(), s).1;
            |out| <= 1 && (out != [] ==> out[0].mtype == NEGO_MSG || out[0].mtype == NEGO_END_MSG)
  {
    hide ParseObjective, ParseOption, S.Same, S.Reply, S.VerdictIn;
  }

  /** Where the run loop's step leaves the game. */
  lemma RunOfView(cfg: Config, w: View, pos: Position) returns (pos': Position)
    requires cfg.Valid() && Fits(cfg, w, pos) && w.session.Some? && w.session.value.pc != S.Exited
    ensures Fits(cfg, RunView(cfg, w), pos')
    ensures pos == Lost ==> pos' == Lost
  {
    hide Fits, RunView, Resting, AtWork;
    pos' := pos;
    match pos
    case Unopened => SessionNeedsOpening(cfg, w);
    case Lost => RestElsewhere(cfg, w, pos);
    case Decided(decider, verdict, v, c) =>
      if decider == ServerSide { RunDecidedByServer(cfg, w, verdict, v, c); }
      else { RunDecidedByClient(cfg, w, verdict, v, c); }
    case Table(to, v, m, c) =>
      if to == ClientSide { RestElsewhere(cfg, w, pos); }
      else { pos' := RunAtTable(cfg, w, v, m, c); }
  }

  lemma SessionNeedsOpening(cfg: Config, w: View)
    requires cfg.Valid() && Fits(cfg, w, Unopened)
    ensures w.session == None
  {
  }

  lemma RunAtTable(cfg: Config, w: View, v: Value, m: int, c: Content) returns (pos': Position)
    requires cfg.Valid() && Fits(cfg, w, Table(ServerSide, v, m, c)) && w.session.Some?
    ensures Fits(cfg, RunView(cfg, w), pos')
  {
    hide Fits, RunView;
    var s := w.session.value;
    TableShape(cfg, w, v, m, c);
    if Resting(cfg, s) {
      pos' := RestAtTable(cfg, w, v, m, c);
    } else if s.pc.Work? {
      pos' := DecideAtTable(cfg, w, v, m, c);
    } else if s.pc.SendWrite? {
      pos' := CounterAtTable(cfg, w, v, m, c);
    } else {
      pos' := ProcessTable(cfg, w, v, m, c);
    }
  }

  lemma TableShape(cfg: Config, w: View, v: Value, m: int, c: Content)
    requires cfg.Valid() && Fits(cfg, w, Table(ServerSide, v, m, c)) && w.session.Some?
    ensures Resting(cfg, w.session.value) || AtWork(cfg, w.session.value, c)
  {
  }

  /** Every action moves the system along the game. */
  lemma StepKeepsInv(cfg: Config, y: System, pos: Position, a: Action) returns (pos': Position)
    requires cfg.Valid() && Inv(cfg, y, pos)
    ensures Inv(cfg, Step(cfg, y, a), pos')
    ensures pos == Lost ==> pos' == Lost
  {
    hide Fits;
    pos' := pos;
    if Enabled(cfg, y, a) {
      match a
      case Start => pos' := StartOnly(cfg, y, pos);
      case ClientRead => pos' := ClientReadStep(cfg, y, pos);
      case Deliver => DeliverStep(cfg, y, pos);
      case Server(b) =>
        if b == S.Run {
          RunMatchesView(cfg, y);
          pos' := RunOfView(cfg, ViewOf(cfg.sid, y), pos);
        } else {
          HelperStep(cfg, y, pos, b);
        }
      case Repeat(i) => RepeatStep(cfg, y, pos, i);
      case ForeignToServer(p) => ForeignSteps(cfg, y, pos, p);
      case ForeignToClient(p) => ForeignSteps(cfg, y, pos, p);
    }
  }

  lemma StartOnly(cfg: Config, y: System, pos: Position) returns (pos': Position)
    requires cfg.Valid() && Inv(cfg, y, pos) && Enabled(cfg, y, Start)
    ensures Inv(cfg, Next(cfg, y, Start), pos')
    ensures pos == Unopened
    ensures S.Same(cfg.filter, Opening(cfg, y.client), cfg.uninit) ==> pos' == Lost
  {
    hide Next, S.Fresh, ParseObjective, ParseOption, Play, S.Same;
    assert pos == Unopened;
    pos' := StartStep(cfg, y);
  }
}
